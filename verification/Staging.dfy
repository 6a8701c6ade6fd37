/** Staging directories: choosing a name, and pairing files found on disk. */
module Staging {
  import Text

  const MARKER := ".__staged__"

  const MAX_INDEX: nat := 1000

  function StageDir(base: string, prefix: string, index: nat): string {
    base + "/" + prefix + MARKER + Text.Decimal(index)
  }

  function FallbackDir(base: string, prefix: string): string {
    base + "/" + prefix + MARKER
  }

  /** The first numbered name from `index` on that is not on disk, else the unnumbered one. */
  function StageDirFrom(base: string, prefix: string, occupied: set<string>, index: nat): string
    decreases MAX_INDEX - index
  {
    if index >= MAX_INDEX then FallbackDir(base, prefix)
    else if StageDir(base, prefix, index) !in occupied then StageDir(base, prefix, index)
    else StageDirFrom(base, prefix, occupied, index + 1)
  }

  function UniqueStageDir(base: string, prefix: string, occupied: set<string>): string {
    StageDirFrom(base, prefix, occupied, 1)
  }

  lemma {:induction false} FirstFree(base: string, prefix: string, occupied: set<string>, index: nat)
    ensures StageDirFrom(base, prefix, occupied, index) !in occupied <==>
            FallbackDir(base, prefix) !in occupied ||
            exists i {:trigger StageDir(base, prefix, i)} :: index <= i < MAX_INDEX &&
                StageDir(base, prefix, i) !in occupied
    decreases MAX_INDEX - index
  {
    if index < MAX_INDEX && StageDir(base, prefix, index) in occupied {
      FirstFree(base, prefix, occupied, index + 1);
    }
  }

  /** `dir` is the base, the prefix and the marker, followed by the least of the numbers 1 to 999
      whose name is not on disk, or by nothing when all of them are. */
  ghost predicate FirstFreeName(dir: string, base: string, prefix: string, occupied: set<string>) {
    (exists i: nat :: NumberedName(dir, base, prefix, i) && 1 <= i <= 999 && dir !in occupied &&
        NamesTaken(base, prefix, occupied, i)) ||
    (dir == base + "/" + prefix + ".__staged__" && NamesTaken(base, prefix, occupied, 1000))
  }

  predicate NumberedName(dir: string, base: string, prefix: string, i: nat) {
    dir == base + "/" + prefix + ".__staged__" + Text.Decimal(i)
  }

  /** The names with the numbers below `n` are on disk. */
  ghost predicate NamesTaken(base: string, prefix: string, occupied: set<string>, n: nat) {
    forall j: nat, dir :: 1 <= j < n && NumberedName(dir, base, prefix, j) ==> dir in occupied
  }

  lemma {:induction false} FirstFreeFrom(base: string, prefix: string, occupied: set<string>, index: nat)
    requires 1 <= index <= 1000 && NamesTaken(base, prefix, occupied, index)
    ensures FirstFreeName(StageDirFrom(base, prefix, occupied, index), base, prefix, occupied)
    decreases 1000 - index
  {
    if index < MAX_INDEX {
      var name := StageDir(base, prefix, index);
      assert NumberedName(name, base, prefix, index);
      if name in occupied {
        assert NamesTaken(base, prefix, occupied, index + 1);
        FirstFreeFrom(base, prefix, occupied, index + 1);
      }
    }
  }

  lemma NameIsFirstFree(base: string, prefix: string, occupied: set<string>)
    ensures FirstFreeName(UniqueStageDir(base, prefix, occupied), base, prefix, occupied)
  {
    FirstFreeFrom(base, prefix, occupied, 1);
  }

  /** A flush gets a directory of its own exactly when one of the 999 numbered names, or the
      unnumbered one, is free; otherwise it is given a directory that is already in use. */
  lemma StageDirFresh(base: string, prefix: string, occupied: set<string>)
    ensures UniqueStageDir(base, prefix, occupied) !in occupied <==> NameFree(base, prefix, occupied)
  {
    FirstFree(base, prefix, occupied, 1);
  }

  /** One of the 999 numbered names or the unnumbered one is free. */
  ghost predicate NameFree(base: string, prefix: string, occupied: set<string>) {
    FallbackDir(base, prefix) !in occupied ||
    exists i {:trigger StageDir(base, prefix, i)} :: 1 <= i < 1000 && StageDir(base, prefix, i) !in occupied
  }

  /** The loop that looks for a free name. */
  method CreateUniqueStageDir(base: string, prefix: string, occupied: set<string>) returns (dir: string)
    ensures dir == UniqueStageDir(base, prefix, occupied)
    ensures FirstFreeName(dir, base, prefix, occupied)
  {
    NameIsFirstFree(base, prefix, occupied);
    for index := 1 to MAX_INDEX
      invariant UniqueStageDir(base, prefix, occupied) == StageDirFrom(base, prefix, occupied, index)
    {
      var candidate := StageDir(base, prefix, index);
      if candidate !in occupied {
        return candidate;
      }
    }
    return FallbackDir(base, prefix);
  }

  /** Least index from `i` on at which `needle` occurs, or -1. */
  function FirstFrom(needle: string, s: string, i: nat): (k: int)
    ensures k >= 0 ==> k >= i && Text.OccursAt(needle, s, k)
    ensures forall j :: i <= j && (k < 0 || j < k) ==> !Text.OccursAt(needle, s, j)
    decreases |s| + 1 - i
  {
    if i > |s| then -1
    else if Text.OccursAt(needle, s, i) then i
    else FirstFrom(needle, s, i + 1)
  }

  /** `name.split(MARKER)[0]`. */
  function BeforeMarker(name: string): string {
    var k := FirstFrom(MARKER, name, 0);
    if k < 0 then name else name[..k]
  }

  lemma OccursInPrefix(prefix: string, rest: string, k: nat)
    requires k <= |prefix|
    ensures Text.OccursAt(MARKER, prefix + MARKER + rest, k) <==> k == |prefix| || Text.OccursAt(MARKER, prefix, k)
  {
    var s := prefix + MARKER + rest;
    assert s[|prefix|..|prefix| + |MARKER|] == MARKER;
    if k + |MARKER| <= |prefix| {
      assert s[k..k + |MARKER|] == prefix[k..k + |MARKER|];
    } else if k < |prefix| {
      // The marker's own leading dot sits where one of its later characters would have to be.
      var j := |prefix| - k;
      assert s[k..k + |MARKER|][j] == s[k + j] == (prefix + MARKER)[|prefix|] == MARKER[0];
    }
  }

  /** A staging directory's name gives the batch prefix back exactly when the prefix itself is
      free of the marker. */
  lemma PrefixRecovered(prefix: string, rest: string)
    ensures BeforeMarker(prefix + MARKER + rest) == prefix <==>
            !exists k :: 0 <= k <= |prefix| && Text.OccursAt(MARKER, prefix, k)
  {
    var s := prefix + MARKER + rest;
    OccursInPrefix(prefix, rest, |prefix|);
    var k := FirstFrom(MARKER, s, 0);
    assert 0 <= k <= |prefix|;
    OccursInPrefix(prefix, rest, k);
    if k == |prefix| {
      forall j | 0 <= j < |prefix| ensures !Text.OccursAt(MARKER, prefix, j) {
        OccursInPrefix(prefix, rest, j);
      }
      assert s[..k] == prefix;
    } else {
      assert |s[..k]| == k;
    }
  }
}
