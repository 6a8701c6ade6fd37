/** Rebuilding the pairs of a staging directory from what is on disk. */
module StageRecovery {
  import opened Wrappers
  import opened Seqs
  import opened SentinelBatching

  datatype RecoveryError = MissingFiles | NoPairs

  type PathPair = (Path, Path)

  function Lefts(pairs: seq<PathPair>): (r: seq<Path>)
    ensures |r| == |pairs| && forall i :: 0 <= i < |r| ==> r[i] == pairs[i].0
  {
    Map(pairs, (q: PathPair) => q.0)
  }

  function Rights(pairs: seq<PathPair>): (r: seq<Path>)
    ensures |r| == |pairs| && forall i :: 0 <= i < |r| ==> r[i] == pairs[i].1
  {
    Map(pairs, (q: PathPair) => q.1)
  }

  function Min(a: nat, b: nat): nat { if a < b then a else b }

  ghost predicate DistinctStems(s: seq<Path>) {
    forall i, j :: 0 <= i < j < |s| ==> s[i].stem != s[j].stem
  }

  ghost predicate HasStem(s: seq<Path>, stem: string) {
    exists j :: 0 <= j < |s| && s[j].stem == stem
  }

  /** Every left has a right of the same stem. */
  ghost predicate StemsCovered(lefts: seq<Path>, rights: seq<Path>) {
    forall i :: 0 <= i < |lefts| ==> HasStem(rights, lefts[i].stem)
  }

  /** `pairs` uses files of the two listings, each at most once. */
  ghost predicate Matching(pairs: seq<PathPair>, lefts: seq<Path>, rights: seq<Path>) {
    NoDup(Lefts(pairs)) && NoDup(Rights(pairs)) &&
    (forall i :: 0 <= i < |pairs| ==> pairs[i].0 in lefts && pairs[i].1 in rights)
  }

  // ----- which pairs are rebuilt -----

  /** Of the files with a stem, the last in the listing. */
  function LastWith(rights: seq<Path>, stem: string): (r: Option<Path>)
    ensures r.Some? ==> r.value in rights && r.value.stem == stem
    ensures r.None? ==> forall i :: 0 <= i < |rights| ==> rights[i].stem != stem
  {
    if rights == [] then None
    else if rights[|rights| - 1].stem == stem then Some(rights[|rights| - 1])
    else LastWith(rights[..|rights| - 1], stem)
  }

  /** One of the first `n` lefts has the stem. */
  predicate Claimed(lefts: seq<Path>, stem: string, n: nat)
    requires n <= |lefts|
  {
    exists j :: 0 <= j < n && lefts[j].stem == stem
  }

  /** The i-th left has a right of its stem and is the first left of that stem. */
  predicate Wins(lefts: seq<Path>, rights: seq<Path>, i: nat)
    requires i < |lefts|
  {
    LastWith(rights, lefts[i].stem).Some? && !Claimed(lefts, lefts[i].stem, i)
  }

  /** Each of the first `n` lefts that wins, with the last right of its stem. */
  function StemPairs(lefts: seq<Path>, rights: seq<Path>, n: nat): seq<PathPair>
    requires n <= |lefts|
  {
    if n == 0 then []
    else
      StemPairs(lefts, rights, n - 1) +
      if Wins(lefts, rights, n - 1) then [(lefts[n - 1], LastWith(rights, lefts[n - 1].stem).value)] else []
  }

  /** The first `n` lefts that do not win. */
  function StemRest(lefts: seq<Path>, rights: seq<Path>, n: nat): seq<Path>
    requires n <= |lefts|
  {
    if n == 0 then []
    else StemRest(lefts, rights, n - 1) + if Wins(lefts, rights, n - 1) then [] else [lefts[n - 1]]
  }

  /** The rights that no left won, in order. */
  function Unused(lefts: seq<Path>, rights: seq<Path>): seq<Path> {
    var used := set q | q in Rights(StemPairs(lefts, rights, |lefts|));
    Filter(rights, (p: Path) => p !in used)
  }

  function Zipped(a: seq<Path>, b: seq<Path>): (r: seq<PathPair>)
    ensures |r| == Min(|a|, |b|) && forall i :: 0 <= i < |r| ==> r[i] == (a[i], b[i])
  {
    seq(Min(|a|, |b|), i requires 0 <= i < Min(|a|, |b|) => (a[i], b[i]))
  }

  /** Stems first; then what is left of both sides is paired, the oldest with the oldest. */
  function Rebuilt(lefts: seq<Path>, rights: seq<Path>): seq<PathPair> {
    StemPairs(lefts, rights, |lefts|) + Zipped(StemRest(lefts, rights, |lefts|), Unused(lefts, rights))
  }

  // ----- the loops -----

  /** `{p.stem: p for p in rights}`: of several files with one stem the last wins. */
  method IndexByStem(rights: seq<Path>) returns (byStem: map<string, Path>)
    ensures Indexes(byStem, rights)
  {
    byStem := map[];
    for i := 0 to |rights|
      invariant Indexes(byStem, rights[..i])
    {
      assert rights[..i + 1][..i] == rights[..i];
      byStem := byStem[rights[i].stem := rights[i]];
    }
    assert rights[..|rights|] == rights;
  }

  ghost predicate Indexes(byStem: map<string, Path>, rights: seq<Path>) {
    forall s :: LastWith(rights, s) == if s in byStem then Some(byStem[s]) else None
  }

  /** Pairs by equal stem; each stem's file is given away once. */
  method MatchStems(lefts: seq<Path>, rights: seq<Path>) returns (pairs: seq<PathPair>, unmatched: seq<Path>)
    ensures pairs == StemPairs(lefts, rights, |lefts|) && unmatched == StemRest(lefts, rights, |lefts|)
  {
    var byStem := IndexByStem(rights);
    pairs, unmatched := [], [];
    var used: set<Path> := {};
    for i := 0 to |lefts|
      invariant used == set q | q in Rights(pairs)
      invariant pairs == StemPairs(lefts, rights, i) && unmatched == StemRest(lefts, rights, i)
    {
      var left := lefts[i];
      WonIff(lefts, rights, left.stem, i);
      assert LastWith(rights, left.stem) == if left.stem in byStem then Some(byStem[left.stem]) else None;
      if left.stem in byStem && byStem[left.stem] !in used {
        var right := byStem[left.stem];
        assert Rights(pairs + [(left, right)]) == Rights(pairs) + [right];
        pairs := pairs + [(left, right)];
        used := used + {right};
      } else {
        unmatched := unmatched + [left];
      }
    }
  }

  /** A stem's file is given away as soon as one left has the stem. */
  lemma {:induction false} WonIff(lefts: seq<Path>, rights: seq<Path>, stem: string, n: nat)
    requires n <= |lefts|
    ensures var r := LastWith(rights, stem);
            r.Some? ==> (r.value in Rights(StemPairs(lefts, rights, n)) <==> Claimed(lefts, stem, n))
  {
    if n > 0 {
      WonIff(lefts, rights, stem, n - 1);
      var before, left := StemPairs(lefts, rights, n - 1), lefts[n - 1];
      if Wins(lefts, rights, n - 1) {
        var right := LastWith(rights, left.stem).value;
        assert Rights(before + [(left, right)]) == Rights(before) + [right];
      } else {
        assert before + [] == before;
      }
    }
  }

  // ----- the order of the pairs, by positions in the listings -----

  /** The i-th left is the first left of its stem, and some right has the stem. */
  ghost predicate OwnsStem(lefts: seq<Path>, rights: seq<Path>, i: nat)
    requires i < |lefts|
  {
    HasStem(rights, lefts[i].stem) && forall k :: 0 <= k < i ==> lefts[k].stem != lefts[i].stem
  }

  /** The m-th pair joins the i-th left and the j-th right. */
  ghost predicate Joins(pairs: seq<PathPair>, lefts: seq<Path>, rights: seq<Path>, m: nat, i: nat, j: nat) {
    m < |pairs| && i < |lefts| && j < |rights| && pairs[m] == (lefts[i], rights[j])
  }

  /** A pair whose left was left over by the stems. */
  ghost predicate JoinsLeftOver(pairs: seq<PathPair>, lefts: seq<Path>, rights: seq<Path>, m: nat, i: nat, j: nat) {
    Joins(pairs, lefts, rights, m, i, j) && !OwnsStem(lefts, rights, i)
  }

  /** A left that owns its stem is paired with the last right of that stem. */
  ghost predicate StemsMatched(pairs: seq<PathPair>, lefts: seq<Path>, rights: seq<Path>) {
    forall i: nat :: i < |lefts| && OwnsStem(lefts, rights, i) ==> StemMatched(pairs, lefts, rights, i)
  }

  ghost predicate StemMatched(pairs: seq<PathPair>, lefts: seq<Path>, rights: seq<Path>, i: nat)
    requires i < |lefts|
  {
    exists m: nat, j: nat :: Joins(pairs, lefts, rights, m, i, j) && rights[j].stem == lefts[i].stem &&
        forall k :: j < k < |rights| ==> rights[k].stem != lefts[i].stem
  }

  /** Pairs by stem come first, in the order of their lefts; of two other pairs the earlier one has
      the earlier left and the earlier right. */
  ghost predicate OldestFirst(pairs: seq<PathPair>, lefts: seq<Path>, rights: seq<Path>) {
    forall m: nat, i: nat, j: nat, m': nat, i': nat, j': nat ::
      m < m' && Joins(pairs, lefts, rights, m, i, j) && Joins(pairs, lefts, rights, m', i', j') ==>
        if OwnsStem(lefts, rights, i) then OwnsStem(lefts, rights, i') ==> i < i'
        else !OwnsStem(lefts, rights, i') && i < i' && j < j'
  }

  /** What stays unpaired of a side is listed after every left-over file of that side that was paired. */
  ghost predicate UnpairedLast(pairs: seq<PathPair>, lefts: seq<Path>, rights: seq<Path>) {
    forall m: nat, i: nat, j: nat :: JoinsLeftOver(pairs, lefts, rights, m, i, j) ==>
      (forall k :: 0 <= k < |lefts| && lefts[k] !in Lefts(pairs) ==> i < k) &&
      (forall k :: 0 <= k < |rights| && rights[k] !in Rights(pairs) ==> j < k)
  }

  lemma WinsIff(lefts: seq<Path>, rights: seq<Path>, i: nat)
    requires i < |lefts|
    ensures Wins(lefts, rights, i) <==> OwnsStem(lefts, rights, i)
  {
  }

  lemma {:induction false} LastWithAt(rights: seq<Path>, stem: string) returns (j: nat)
    requires LastWith(rights, stem).Some?
    ensures j < |rights| && rights[j] == LastWith(rights, stem).value
    ensures forall k :: j < k < |rights| ==> rights[k].stem != stem
    decreases |rights|
  {
    j := |rights| - 1;
    if rights[j].stem != stem {
      j := LastWithAt(rights[..j], stem);
    }
  }

  lemma {:induction false} WinnersInOrder(lefts: seq<Path>, rights: seq<Path>, n: nat)
    requires n <= |lefts|
    ensures Subseq(Lefts(StemPairs(lefts, rights, n)), lefts[..n])
  {
    if n > 0 {
      WinnersInOrder(lefts, rights, n - 1);
      var pairs, left := StemPairs(lefts, rights, n - 1), lefts[n - 1];
      assert lefts[..n] == lefts[..n - 1] + [left];
      SubseqGrow(Lefts(pairs), lefts[..n - 1], left);
      if Wins(lefts, rights, n - 1) {
        var right := LastWith(rights, left.stem).value;
        assert Lefts(pairs + [(left, right)]) == Lefts(pairs) + [left];
      } else {
        assert pairs + [] == pairs;
      }
    }
  }

  lemma {:induction false} RestInOrder(lefts: seq<Path>, rights: seq<Path>, n: nat)
    requires n <= |lefts|
    ensures Subseq(StemRest(lefts, rights, n), lefts[..n])
  {
    if n > 0 {
      RestInOrder(lefts, rights, n - 1);
      var rest, left := StemRest(lefts, rights, n - 1), lefts[n - 1];
      assert lefts[..n] == lefts[..n - 1] + [left];
      SubseqGrow(rest, lefts[..n - 1], left);
      assert rest + [] == rest;
    }
  }

  /** Which side a left goes to. */
  lemma {:induction false} SideOf(lefts: seq<Path>, rights: seq<Path>, n: nat, i: nat)
    requires i < n <= |lefts|
    ensures if Wins(lefts, rights, i) then lefts[i] in Lefts(StemPairs(lefts, rights, n))
            else lefts[i] in StemRest(lefts, rights, n)
  {
    if i < n - 1 {
      SideOf(lefts, rights, n - 1, i);
    }
    var pairs, left := StemPairs(lefts, rights, n - 1), lefts[n - 1];
    if Wins(lefts, rights, n - 1) {
      var right := LastWith(rights, left.stem).value;
      assert Lefts(pairs + [(left, right)]) == Lefts(pairs) + [left];
    } else {
      assert pairs + [] == pairs;
    }
  }

  lemma NotBoth(a: seq<Path>, b: seq<Path>, p: Path)
    requires NoDup(a + b)
    ensures p in a ==> p !in b
  {
    if p in a {
      var i :| 0 <= i < |a| && a[i] == p;
      forall j | 0 <= j < |b| ensures b[j] != p {
        assert (a + b)[i] != (a + b)[|a| + j];
      }
    }
  }

  lemma SideIff(lefts: seq<Path>, rights: seq<Path>, i: nat)
    requires NoDup(lefts) && i < |lefts|
    ensures OwnsStem(lefts, rights, i) <==> lefts[i] in Lefts(StemPairs(lefts, rights, |lefts|))
    ensures OwnsStem(lefts, rights, i) <==> lefts[i] !in StemRest(lefts, rights, |lefts|)
  {
    var n := |lefts|;
    WinsIff(lefts, rights, i);
    SideOf(lefts, rights, n, i);
    AllMatched(lefts, rights, n);
    NotBoth(Lefts(StemPairs(lefts, rights, n)), StemRest(lefts, rights, n), lefts[i]);
  }

  /** The pairs by stem stand first, the zipped ones behind them. */
  lemma PairSide(lefts: seq<Path>, rights: seq<Path>, m: nat, i: nat, j: nat)
    requires NoDup(lefts) && Joins(Rebuilt(lefts, rights), lefts, rights, m, i, j)
    ensures var k := |StemPairs(lefts, rights, |lefts|)|;
            var rest, unused := StemRest(lefts, rights, |lefts|), Unused(lefts, rights);
            if OwnsStem(lefts, rights, i) then m < k && Lefts(StemPairs(lefts, rights, |lefts|))[m] == lefts[i]
            else m >= k && m - k < |rest| && m - k < |unused| && rest[m - k] == lefts[i] && unused[m - k] == rights[j]
  {
    var sp, rest := StemPairs(lefts, rights, |lefts|), StemRest(lefts, rights, |lefts|);
    SideIff(lefts, rights, i);
    if m < |sp| {
      assert Lefts(sp)[m] == lefts[i];
    } else {
      assert rest[m - |sp|] == lefts[i];
    }
  }

  lemma WinnerIndex(lefts: seq<Path>, rights: seq<Path>, m: nat, i: nat, m': nat, i': nat)
    requires NoDup(lefts) && i < |lefts| && i' < |lefts|
    requires m < m' < |StemPairs(lefts, rights, |lefts|)|
    requires Lefts(StemPairs(lefts, rights, |lefts|))[m] == lefts[i]
    requires Lefts(StemPairs(lefts, rights, |lefts|))[m'] == lefts[i']
    ensures i < i'
  {
    WinnersInOrder(lefts, rights, |lefts|);
    assert lefts[..|lefts|] == lefts;
    SubseqOrder(Lefts(StemPairs(lefts, rights, |lefts|)), lefts, m, m', i, i');
  }

  lemma RestIndex(lefts: seq<Path>, rights: seq<Path>, k: nat, i: nat, k': nat, i': nat)
    requires NoDup(lefts) && i < |lefts| && i' < |lefts| && k < k' < |StemRest(lefts, rights, |lefts|)|
    requires StemRest(lefts, rights, |lefts|)[k] == lefts[i] && StemRest(lefts, rights, |lefts|)[k'] == lefts[i']
    ensures i < i'
  {
    RestInOrder(lefts, rights, |lefts|);
    assert lefts[..|lefts|] == lefts;
    SubseqOrder(StemRest(lefts, rights, |lefts|), lefts, k, k', i, i');
  }

  lemma UnusedIndex(lefts: seq<Path>, rights: seq<Path>, k: nat, j: nat, k': nat, j': nat)
    requires NoDup(rights) && j < |rights| && j' < |rights| && k < k' < |Unused(lefts, rights)|
    requires Unused(lefts, rights)[k] == rights[j] && Unused(lefts, rights)[k'] == rights[j']
    ensures j < j'
  {
    var used := set q | q in Rights(StemPairs(lefts, rights, |lefts|));
    FilterSubseq(rights, (p: Path) => p !in used);
    SubseqOrder(Unused(lefts, rights), rights, k, k', j, j');
  }

  /** Of two rebuilt pairs, which was listed first. */
  lemma PairOrder(lefts: seq<Path>, rights: seq<Path>, m: nat, i: nat, j: nat, m': nat, i': nat, j': nat)
    requires NoDup(lefts) && NoDup(rights) && m < m'
    requires Joins(Rebuilt(lefts, rights), lefts, rights, m, i, j)
    requires Joins(Rebuilt(lefts, rights), lefts, rights, m', i', j')
    ensures if OwnsStem(lefts, rights, i) then OwnsStem(lefts, rights, i') ==> i < i'
            else !OwnsStem(lefts, rights, i') && i < i' && j < j'
  {
    var k := |StemPairs(lefts, rights, |lefts|)|;
    PairSide(lefts, rights, m, i, j);
    PairSide(lefts, rights, m', i', j');
    if OwnsStem(lefts, rights, i') {
      WinnerIndex(lefts, rights, m, i, m', i');
    } else if !OwnsStem(lefts, rights, i) {
      RestIndex(lefts, rights, m - k, i, m' - k, i');
      UnusedIndex(lefts, rights, m - k, j, m' - k, j');
    }
  }

  lemma RebuiltOldestFirst(lefts: seq<Path>, rights: seq<Path>)
    requires NoDup(lefts) && NoDup(rights)
    ensures OldestFirst(Rebuilt(lefts, rights), lefts, rights)
  {
    var pairs := Rebuilt(lefts, rights);
    forall m: nat, i: nat, j: nat, m': nat, i': nat, j': nat |
      m < m' && Joins(pairs, lefts, rights, m, i, j) && Joins(pairs, lefts, rights, m', i', j')
      ensures if OwnsStem(lefts, rights, i) then OwnsStem(lefts, rights, i') ==> i < i'
              else !OwnsStem(lefts, rights, i') && i < i' && j < j'
    {
      PairOrder(lefts, rights, m, i, j, m', i', j');
    }
  }

  /** What of the left-over files is paired. */
  lemma ZippedPaired(lefts: seq<Path>, rights: seq<Path>, l: nat)
    requires l < |StemRest(lefts, rights, |lefts|)| && l < |Unused(lefts, rights)|
    ensures StemRest(lefts, rights, |lefts|)[l] in Lefts(Rebuilt(lefts, rights))
    ensures Unused(lefts, rights)[l] in Rights(Rebuilt(lefts, rights))
  {
    var k := |StemPairs(lefts, rights, |lefts|)| + l;
    assert Lefts(Rebuilt(lefts, rights))[k] == StemRest(lefts, rights, |lefts|)[l];
    assert Rights(Rebuilt(lefts, rights))[k] == Unused(lefts, rights)[l];
  }

  lemma PairedByStem(lefts: seq<Path>, rights: seq<Path>, p: Path)
    ensures p in Lefts(StemPairs(lefts, rights, |lefts|)) ==> p in Lefts(Rebuilt(lefts, rights))
    ensures p in Rights(StemPairs(lefts, rights, |lefts|)) ==> p in Rights(Rebuilt(lefts, rights))
  {
    var sp := StemPairs(lefts, rights, |lefts|);
    var zipped := Zipped(StemRest(lefts, rights, |lefts|), Unused(lefts, rights));
    assert Lefts(sp + zipped) == Lefts(sp) + Lefts(zipped) && Rights(sp + zipped) == Rights(sp) + Rights(zipped);
  }

  /** An unpaired left is among the left-over lefts, behind those that were zipped. */
  lemma UnpairedLeft(lefts: seq<Path>, rights: seq<Path>, m: nat, i: nat, j: nat, k: nat)
    requires NoDup(lefts) && JoinsLeftOver(Rebuilt(lefts, rights), lefts, rights, m, i, j)
    requires k < |lefts| && lefts[k] !in Lefts(Rebuilt(lefts, rights))
    ensures i < k
  {
    var rest, unused := StemRest(lefts, rights, |lefts|), Unused(lefts, rights);
    PairSide(lefts, rights, m, i, j);
    SideIff(lefts, rights, k);
    PairedByStem(lefts, rights, lefts[k]);
    var l: nat :| l < |rest| && rest[l] == lefts[k];
    forall x: nat | x < |rest| && x < |unused| ensures rest[x] != lefts[k] {
      ZippedPaired(lefts, rights, x);
    }
    RestIndex(lefts, rights, m - |StemPairs(lefts, rights, |lefts|)|, i, l, k);
  }

  lemma UnusedRight(lefts: seq<Path>, rights: seq<Path>, k: nat) returns (l: nat)
    requires k < |rights| && rights[k] !in Rights(Rebuilt(lefts, rights))
    ensures l < |Unused(lefts, rights)| && Unused(lefts, rights)[l] == rights[k]
  {
    PairedByStem(lefts, rights, rights[k]);
    var used := set q | q in Rights(StemPairs(lefts, rights, |lefts|));
    FilterIn(rights, (p: Path) => p !in used, rights[k]);
    l :| l < |Unused(lefts, rights)| && Unused(lefts, rights)[l] == rights[k];
  }

  lemma UnpairedRight(lefts: seq<Path>, rights: seq<Path>, m: nat, i: nat, j: nat, k: nat)
    requires NoDup(lefts) && NoDup(rights) && JoinsLeftOver(Rebuilt(lefts, rights), lefts, rights, m, i, j)
    requires k < |rights| && rights[k] !in Rights(Rebuilt(lefts, rights))
    ensures j < k
  {
    var rest, unused := StemRest(lefts, rights, |lefts|), Unused(lefts, rights);
    PairSide(lefts, rights, m, i, j);
    var l := UnusedRight(lefts, rights, k);
    forall x: nat | x < |rest| && x < |unused| ensures unused[x] != rights[k] {
      ZippedPaired(lefts, rights, x);
    }
    UnusedIndex(lefts, rights, m - |StemPairs(lefts, rights, |lefts|)|, j, l, k);
  }

  lemma RebuiltUnpairedLast(lefts: seq<Path>, rights: seq<Path>)
    requires NoDup(lefts) && NoDup(rights)
    ensures UnpairedLast(Rebuilt(lefts, rights), lefts, rights)
  {
    var pairs := Rebuilt(lefts, rights);
    forall m: nat, i: nat, j: nat | JoinsLeftOver(pairs, lefts, rights, m, i, j)
      ensures forall k :: 0 <= k < |lefts| && lefts[k] !in Lefts(pairs) ==> i < k
      ensures forall k :: 0 <= k < |rights| && rights[k] !in Rights(pairs) ==> j < k
    {
      forall k | 0 <= k < |lefts| && lefts[k] !in Lefts(pairs) ensures i < k {
        UnpairedLeft(lefts, rights, m, i, j, k);
      }
      forall k | 0 <= k < |rights| && rights[k] !in Rights(pairs) ensures j < k {
        UnpairedRight(lefts, rights, m, i, j, k);
      }
    }
  }

  lemma RebuiltStems(lefts: seq<Path>, rights: seq<Path>)
    ensures StemsMatched(Rebuilt(lefts, rights), lefts, rights)
  {
    var sp, pairs := StemPairs(lefts, rights, |lefts|), Rebuilt(lefts, rights);
    forall i: nat | i < |lefts| && OwnsStem(lefts, rights, i) ensures StemMatched(pairs, lefts, rights, i) {
      WinsIff(lefts, rights, i);
      var j := LastWithAt(rights, lefts[i].stem);
      StemPairIff(lefts, rights, |lefts|, (lefts[i], rights[j]));
      var m: nat :| m < |sp| && sp[m] == (lefts[i], rights[j]);
      assert Joins(pairs, lefts, rights, m, i, j);
    }
  }

  /** `reconstruct_pairs_from_stage`. The two listings are the directory's files of either kind,
      oldest first. */
  method ReconstructPairs(lefts: seq<Path>, rights: seq<Path>) returns (r: Result<seq<PathPair>, RecoveryError>)
    requires NoDup(lefts) && NoDup(rights)
    ensures r == if lefts == [] || rights == [] then Err(MissingFiles) else Ok(Rebuilt(lefts, rights))
    ensures r.Ok? ==> Matching(r.value, lefts, rights) && |r.value| == Min(|lefts|, |rights|)
    ensures r.Ok? ==> StemsMatched(r.value, lefts, rights)
    ensures r.Ok? ==> OldestFirst(r.value, lefts, rights) && UnpairedLast(r.value, lefts, rights)
  {
    if lefts == [] || rights == [] {
      return Err(MissingFiles);
    }
    var pairs, unmatched := MatchStems(lefts, rights);
    var used := set q | q in Rights(pairs);
    var remaining := Filter(rights, (p: Path) => p !in used);
    var extra := Zip(unmatched, remaining);
    var all := pairs + extra;
    RebuiltIsMaximal(lefts, rights);
    RebuiltStems(lefts, rights);
    RebuiltOldestFirst(lefts, rights);
    RebuiltUnpairedLast(lefts, rights);
    r := if all == [] then Err(NoPairs) else Ok(all);
  }

  method Zip(a: seq<Path>, b: seq<Path>) returns (pairs: seq<PathPair>)
    ensures pairs == Zipped(a, b)
  {
    pairs := [];
    while |pairs| < |a| && |pairs| < |b|
      invariant |pairs| <= |a| && |pairs| <= |b|
      invariant forall i :: 0 <= i < |pairs| ==> pairs[i] == (a[i], b[i])
      decreases |a| - |pairs|
    {
      pairs := pairs + [(a[|pairs|], b[|pairs|])];
    }
  }

  // ----- what the rebuilt pairs are -----

  /** A left is paired by its stem exactly when some right has the stem and no earlier left does,
      and then with the last such right. */
  lemma {:induction false} StemPairIff(lefts: seq<Path>, rights: seq<Path>, n: nat, q: PathPair)
    requires n <= |lefts|
    ensures q in StemPairs(lefts, rights, n) <==>
            exists i :: 0 <= i < n && Wins(lefts, rights, i) && q == (lefts[i], LastWith(rights, lefts[i].stem).value)
  {
    if n > 0 {
      StemPairIff(lefts, rights, n - 1, q);
    }
  }

  /** What is known of the pairs and the rest after the first `n` lefts. */
  ghost predicate Matched(lefts: seq<Path>, rights: seq<Path>, n: nat)
    requires n <= |lefts|
  {
    var pairs, rest := StemPairs(lefts, rights, n), StemRest(lefts, rights, n);
    |pairs| + |rest| == n && NoDup(Rights(pairs)) && NoDup(Lefts(pairs) + rest) &&
    (forall k :: 0 <= k < |pairs| ==> pairs[k].1 in rights && pairs[k].0.stem == pairs[k].1.stem) &&
    (forall q :: q in Lefts(pairs) + rest ==> q in lefts[..n])
  }

  lemma {:induction false} AllMatched(lefts: seq<Path>, rights: seq<Path>, n: nat)
    requires NoDup(lefts) && n <= |lefts|
    ensures Matched(lefts, rights, n)
  {
    if n > 0 {
      AllMatched(lefts, rights, n - 1);
      var pairs, rest, left := StemPairs(lefts, rights, n - 1), StemRest(lefts, rights, n - 1), lefts[n - 1];
      assert lefts[..n] == lefts[..n - 1] + [left] && left !in lefts[..n - 1];
      if Wins(lefts, rights, n - 1) {
        WonIff(lefts, rights, left.stem, n - 1);
        JoinPair(pairs, rest, left, LastWith(rights, left.stem).value);
        assert rest + [] == rest;
      } else {
        assert pairs + [] == pairs;
        assert Lefts(pairs) + (rest + [left]) == (Lefts(pairs) + rest) + [left];
      }
    }
  }

  /** The rebuilt pairs use each file at most once and are as many as there can be. */
  lemma RebuiltIsMaximal(lefts: seq<Path>, rights: seq<Path>)
    requires NoDup(lefts) && NoDup(rights)
    ensures Matching(Rebuilt(lefts, rights), lefts, rights) && |Rebuilt(lefts, rights)| == Min(|lefts|, |rights|)
  {
    var pairs, rest := StemPairs(lefts, rights, |lefts|), StemRest(lefts, rights, |lefts|);
    var used := set q | q in Rights(pairs);
    var remaining := Unused(lefts, rights);
    AllMatched(lefts, rights, |lefts|);
    MatchedAll(lefts, rights, pairs, rest);
    RemainingCount(rights, Rights(pairs), used);
    FilterSubseq(rights, (p: Path) => p !in used);
    SubseqNoDup(remaining, rights);
    Assemble(pairs, rest, remaining, Zipped(rest, remaining), lefts, rights);
  }

  lemma MatchedAll(lefts: seq<Path>, rights: seq<Path>, pairs: seq<PathPair>, rest: seq<Path>)
    requires Matched(lefts, rights, |lefts|)
    requires pairs == StemPairs(lefts, rights, |lefts|) && rest == StemRest(lefts, rights, |lefts|)
    ensures Matching(pairs, lefts, rights) && forall i :: 0 <= i < |rest| ==> rest[i] in lefts
  {
    var all := Lefts(pairs) + rest;
    assert lefts[..|lefts|] == lefts;
    assert forall k :: 0 <= k < |pairs| ==> all[k] == Lefts(pairs)[k] && all[k] in all;
    assert forall k :: 0 <= k < |rest| ==> all[|pairs| + k] == rest[k] && rest[k] in all;
  }

  /** With distinct stems that all have a right, every left is paired by its stem. */
  lemma {:induction false} AllWin(lefts: seq<Path>, rights: seq<Path>, n: nat)
    requires DistinctStems(lefts) && StemsCovered(lefts, rights) && n <= |lefts|
    ensures Lefts(StemPairs(lefts, rights, n)) == lefts[..n] && StemRest(lefts, rights, n) == []
  {
    if n > 0 {
      AllWin(lefts, rights, n - 1);
      assert HasStem(rights, lefts[n - 1].stem);
      assert Wins(lefts, rights, n - 1);
      assert lefts[..n] == lefts[..n - 1] + [lefts[n - 1]];
    }
  }

  lemma JoinPair(pairs: seq<PathPair>, unmatched: seq<Path>, left: Path, right: Path)
    requires NoDup(Rights(pairs)) && right !in Rights(pairs)
    requires NoDup(Lefts(pairs) + unmatched) && left !in Lefts(pairs) + unmatched
    ensures var all := pairs + [(left, right)];
            Lefts(all) == Lefts(pairs) + [left] && Rights(all) == Rights(pairs) + [right] &&
            NoDup(Rights(all)) && NoDup(Lefts(all) + unmatched)
  {
    var all := pairs + [(left, right)];
    var before, after := Lefts(pairs) + unmatched, Lefts(all) + unmatched;
    forall i, j | 0 <= i < j < |after| ensures after[i] != after[j] {
      var k := |pairs|;
      assert i != k ==> after[i] == before[if i < k then i else i - 1];
      assert j != k ==> after[j] == before[if j < k then j else j - 1];
    }
  }

  lemma RemainingCount(rights: seq<Path>, taken: seq<Path>, used: set<Path>)
    requires NoDup(rights) && NoDup(taken) && used == set q | q in taken
    requires forall q :: q in taken ==> q in rights
    ensures |Filter(rights, (p: Path) => p !in used)| == |rights| - |taken|
  {
    var keep, drop := (p: Path) => p !in used, (p: Path) => p in used;
    FilterPartition(rights, keep, drop, (p: Path) => p);
    assert |multiset(Map(rights, (p: Path) => p))| == |rights|;
    FilterSubseq(rights, drop);
    SubseqNoDup(Filter(rights, drop), rights);
    forall q | q in taken ensures q in Filter(rights, drop) {
      FilterIn(rights, drop, q);
    }
    SameElementsSameLength(Filter(rights, drop), taken);
  }

  lemma Assemble(pairs: seq<PathPair>, unmatched: seq<Path>, remaining: seq<Path>, extra: seq<PathPair>,
                 lefts: seq<Path>, rights: seq<Path>)
    requires Matching(pairs, lefts, rights) && NoDup(Lefts(pairs) + unmatched) && NoDup(remaining)
    requires forall i :: 0 <= i < |unmatched| ==> unmatched[i] in lefts
    requires forall i :: 0 <= i < |remaining| ==> remaining[i] in rights && remaining[i] !in Rights(pairs)
    requires |extra| == Min(|unmatched|, |remaining|)
    requires forall i :: 0 <= i < |extra| ==> extra[i] == (unmatched[i], remaining[i])
    ensures Matching(pairs + extra, lefts, rights)
    ensures extra == [] ==> pairs + extra == pairs
  {
    var all := pairs + extra;
    assert forall i :: 0 <= i < |all| ==> Lefts(all)[i] == (Lefts(pairs) + unmatched)[i];
    forall i, j | 0 <= i < j < |all| ensures Rights(all)[i] != Rights(all)[j] {
      if j < |pairs| {
        assert Rights(pairs)[i] != Rights(pairs)[j];
      } else if i < |pairs| {
        assert Rights(pairs)[i] in Rights(pairs);
      }
    }
  }

  /** When every staged pair shares its stem and stems are distinct, any result of the recovery
      is the staged pairs themselves. */
  lemma StagedPairsRecovered(staged: seq<PathPair>, recovered: seq<PathPair>)
    requires forall i :: 0 <= i < |staged| ==> staged[i].0.stem == staged[i].1.stem
    requires DistinctStems(Lefts(staged))
    requires Matching(recovered, Lefts(staged), Rights(staged)) && |recovered| == |staged|
    requires forall i :: 0 <= i < |recovered| ==> recovered[i].0.stem == recovered[i].1.stem
    ensures multiset(recovered) == multiset(staged)
  {
    forall i | 0 <= i < |recovered| ensures recovered[i] in staged {
      var a :| 0 <= a < |staged| && Lefts(staged)[a] == recovered[i].0;
      var b :| 0 <= b < |staged| && Rights(staged)[b] == recovered[i].1;
      assert Lefts(staged)[b].stem == Lefts(staged)[a].stem;
      assert a == b;
      assert staged[a] == recovered[i];
    }
    assert NoDup(recovered) by {
      forall i, j | 0 <= i < j < |recovered| ensures recovered[i] != recovered[j] {
        assert Lefts(recovered)[i] != Lefts(recovered)[j];
      }
    }
    assert NoDup(staged) by {
      forall i, j | 0 <= i < j < |staged| ensures staged[i] != staged[j] {
        assert Lefts(staged)[i].stem != Lefts(staged)[j].stem;
      }
    }
    SameSize(recovered, staged);
  }

  /** The whole recovery: a directory holding exactly the files of `staged`, whose pairs share
      their stems and whose stems differ, listed in whatever order of age, yields `staged`. */
  method RecoverBatch(ghost staged: seq<PathPair>, lefts: seq<Path>, rights: seq<Path>) returns (pairs: seq<PathPair>)
    requires staged != [] && DistinctStems(Lefts(staged))
    requires forall i :: 0 <= i < |staged| ==> staged[i].0.stem == staged[i].1.stem
    requires NoDup(lefts) && forall p :: p in lefts <==> p in Lefts(staged)
    requires NoDup(rights) && forall p :: p in rights <==> p in Rights(staged)
    ensures multiset(pairs) == multiset(staged)
  {
    ListingFacts(staged, lefts, rights);
    var r := ReconstructPairs(lefts, rights);
    pairs := r.value;
    AllWin(lefts, rights, |lefts|);
    AllMatched(lefts, rights, |lefts|);
    assert pairs == StemPairs(lefts, rights, |lefts|);
    StagedPairsRecovered(staged, pairs);
  }

  lemma ListingFacts(staged: seq<PathPair>, lefts: seq<Path>, rights: seq<Path>)
    requires staged != [] && DistinctStems(Lefts(staged))
    requires forall i :: 0 <= i < |staged| ==> staged[i].0.stem == staged[i].1.stem
    requires NoDup(lefts) && forall p :: p in lefts <==> p in Lefts(staged)
    requires NoDup(rights) && forall p :: p in rights <==> p in Rights(staged)
    ensures |lefts| == |rights| == |staged| && DistinctStems(lefts) && StemsCovered(lefts, rights)
  {
    assert NoDup(Lefts(staged)) by {
      forall i, j | 0 <= i < j < |staged| ensures Lefts(staged)[i] != Lefts(staged)[j] {
        assert Lefts(staged)[i].stem != Lefts(staged)[j].stem;
      }
    }
    assert NoDup(Rights(staged)) by {
      forall i, j | 0 <= i < j < |staged| ensures Rights(staged)[i] != Rights(staged)[j] {
        assert Lefts(staged)[i].stem != Lefts(staged)[j].stem;
      }
    }
    SameElementsSameLength(lefts, Lefts(staged));
    SameElementsSameLength(rights, Rights(staged));
    forall i, j | 0 <= i < j < |lefts| ensures lefts[i].stem != lefts[j].stem {
      assert lefts[i] in lefts && lefts[j] in lefts;
      var a :| 0 <= a < |staged| && Lefts(staged)[a] == lefts[i];
      var b :| 0 <= b < |staged| && Lefts(staged)[b] == lefts[j];
      assert a != b;
    }
    forall i | 0 <= i < |lefts| ensures HasStem(rights, lefts[i].stem) {
      assert lefts[i] in lefts;
      var a :| 0 <= a < |staged| && Lefts(staged)[a] == lefts[i];
      assert Rights(staged)[a] in rights;
    }
  }
}
