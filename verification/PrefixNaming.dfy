/** File name prefixes `user-institute-sample` under the default naming settings. */
module PrefixNaming {
  import opened Splitting
  import opened Seqs
  import opened Text

  const DASH: char -> bool := c => c == '-'

  predicate Letters(s: string) { s != "" && forall i :: 0 <= i < |s| ==> IsLetter(s[i]) }

  predicate SampleChar(c: char) { IsLetter(c) || IsDigit(c) || c == '_' || c == ' ' }

  predicate SampleChars(s: string) { forall i :: 0 <= i < |s| ==> SampleChar(s[i]) }

  predicate SampleOk(s: string) { 1 <= |s| <= 30 && SampleChars(s) }

  /** The body of the file name pattern. Its characters rule out every dot, so the pattern's
      three conditions on dots add nothing. */
  predicate Core(f: string) {
    var p := Split(f, DASH);
    |p| == 3 && Letters(p[0]) && Letters(p[1]) && SampleOk(p[2])
  }

  /** The pattern's `$` also matches before a final line feed. */
  predicate Matches(f: string) {
    Core(f) || (f != "" && f[|f| - 1] == '\n' && Core(f[..|f| - 1]))
  }

  /** `is_valid_prefix`. */
  predicate Valid(f: string) { Matches(f) && |Split(f, DASH)| - 1 >= 2 }

  function Underscored(s: string): (r: string)
    ensures |r| == |s| && forall i :: 0 <= i < |s| ==> r[i] == if s[i] == ' ' then '_' else s[i]
  {
    seq(|s|, i requires 0 <= i < |s| => if s[i] == ' ' then '_' else s[i])
  }

  function Three(u: string, i: string, s: string): string { u + "-" + i + "-" + s }

  /** `sanitize_prefix`. */
  function Sanitize(f: string): string {
    var parts := Split(Strip(f), DASH);
    if |parts| < 3 then f
    else Three(Lower(Strip(parts[0])), Lower(Strip(parts[1])), Underscored(Join(Map(parts[2..], Strip), '-')))
  }

  // ----- three segments -----

  lemma JoinThree(u: string, i: string, s: string)
    ensures JoinMixed([u, i, s], "--") == Three(u, i, s)
  {
    JoinTwo(u, '-', i);
    assert [u, i, s][..2] == [u, i] && "--"[..1] == "-";
  }

  lemma SplitThree(u: string, i: string, s: string)
    requires Free(u, DASH) && Free(i, DASH) && Free(s, DASH)
    ensures Split(Three(u, i, s), DASH) == [u, i, s]
  {
    JoinThree(u, i, s);
    SplitJoin([u, i, s], "--", DASH);
  }

  lemma ThreeOfSplit(f: string)
    requires |Split(f, DASH)| == 3
    ensures var p := Split(f, DASH); f == Three(p[0], p[1], p[2])
  {
    var p := Split(f, DASH);
    JoinSplit(f, '-', DASH);
    assert Repeat('-', 2) == "--" && p == [p[0], p[1], p[2]];
    JoinThree(p[0], p[1], p[2]);
  }

  lemma LettersFree(s: string)
    requires Letters(s)
    ensures Free(s, DASH) && Trimmed(s) && Letters(Lower(s)) && Lower(Lower(s)) == Lower(s)
  {
  }

  /** A third segment that a matching name can have: a sample, perhaps with a final line feed. */
  predicate Tail(s: string) {
    SampleOk(s) || (s != "" && s[|s| - 1] == '\n' && SampleOk(s[..|s| - 1]))
  }

  lemma CoreThree(u: string, i: string, s: string)
    requires Letters(u) && Letters(i) && SampleOk(s)
    ensures Valid(Three(u, i, s))
  {
    LettersFree(u);
    LettersFree(i);
    SplitThree(u, i, s);
  }

  /** A name that matches has three segments of the right kinds, and always two separators. */
  lemma ValidSegments(f: string)
    requires Matches(f)
    ensures var p := Split(f, DASH);
            |p| == 3 && f == Three(p[0], p[1], p[2]) && Letters(p[0]) && Letters(p[1]) && Tail(p[2]) && Free(p[2], DASH)
    ensures Valid(f)
  {
    if !Core(f) {
      var s := Split(f[..|f| - 1], DASH)[2];
      assert (s + "\n")[..|s|] == s;
    }
    ThreeOfSplit(f);
  }

  // ----- sanitising -----

  lemma {:induction false} StripRightAfter(a: string, c: char, s: string)
    requires !IsSpace(c)
    ensures StripRight(a + [c] + s) == a + [c] + StripRight(s)
    decreases |s|
  {
    var f := a + [c] + s;
    if s != "" {
      assert f[..|f| - 1] == a + [c] + s[..|s| - 1];
      if IsSpace(s[|s| - 1]) {
        StripRightAfter(a, c, s[..|s| - 1]);
      }
    }
  }

  lemma StripThree(u: string, i: string, s: string)
    requires Letters(u)
    ensures Strip(Three(u, i, s)) == Three(u, i, StripRight(s))
  {
    var f := Three(u, i, s);
    assert f[0] == u[0] && StripLeft(f) == f;
    StripRightAfter(u + "-" + i, '-', s);
    assert u + "-" + i + ['-'] + s == f;
    assert u + "-" + i + ['-'] + StripRight(s) == Three(u, i, StripRight(s));
  }

  /** The sample as sanitising leaves it. */
  function CleanSample(s: string): string { Underscored(Strip(StripRight(s))) }

  lemma RightFree(s: string)
    requires Free(s, DASH)
    ensures Free(StripRight(s), DASH)
  {
  }

  lemma SanitizeThree(u: string, i: string, s: string)
    requires Letters(u) && Letters(i) && Free(s, DASH)
    ensures Sanitize(Three(u, i, s)) == Three(Lower(u), Lower(i), CleanSample(s))
  {
    StripThree(u, i, s);
    LettersFree(u);
    LettersFree(i);
    RightFree(s);
    SplitThree(u, i, StripRight(s));
    var parts := [u, i, StripRight(s)];
    assert parts[2..] == [StripRight(s)];
    assert Map(parts[2..], Strip) == [Strip(StripRight(s))];
  }

  /** Whether there is anything but blanks. */
  ghost predicate HasText(s: string) { exists i :: 0 <= i < |s| && !IsSpace(s[i]) }

  lemma StripText(s: string)
    ensures Strip(s) != "" <==> HasText(s)
  {
    var lo, hi := StripSlice(s);
    if HasText(s) {
      var i :| 0 <= i < |s| && !IsSpace(s[i]);
      assert lo <= i < hi;
    }
    if Strip(s) != "" {
      assert s[lo] == Strip(s)[0];
    }
  }

  /** The cleaned sample is a stretch of the original without its blanks. */
  lemma CleanSampleFrom(s: string)
    requires Tail(s)
    ensures var w := CleanSample(s);
            |w| <= 30 && SampleChars(w) && (forall i :: 0 <= i < |w| ==> !IsSpace(w[i])) && (w != "" <==> HasText(s))
  {
    var r := StripRight(s);
    StripRightPrefix(s);
    var lo, hi := StripSlice(r);
    StripText(r);
    if s[|s| - 1] == '\n' {
      assert |r| < |s| by {
        assert StripRight(s) == StripRight(s[..|s| - 1]);
        StripRightPrefix(s[..|s| - 1]);
      }
    }
    assert forall i :: 0 <= i < |r| ==> SampleChar(r[i]);
    var w := CleanSample(s);
    forall i | 0 <= i < |w| ensures SampleChar(w[i]) && !IsSpace(w[i]) {
      assert Strip(r)[i] == r[lo + i];
    }
  }

  lemma CleanSampleFixed(w: string)
    requires SampleChars(w) && forall i :: 0 <= i < |w| ==> !IsSpace(w[i])
    ensures CleanSample(w) == w && Free(w, DASH)
  {
  }

  /** What sanitising a valid name gives. */
  lemma SanitizedSegments(f: string)
    requires Valid(f)
    ensures var p := Split(f, DASH);
            |p| == 3 && Sanitize(f) == Three(Lower(p[0]), Lower(p[1]), CleanSample(p[2])) &&
            Letters(Lower(p[0])) && Letters(Lower(p[1])) && Tail(p[2])
  {
    ValidSegments(f);
    var p := Split(f, DASH);
    SanitizeThree(p[0], p[1], p[2]);
    LettersFree(p[0]);
    LettersFree(p[1]);
  }

  /** `w` is the stretch of `s` from `lo` to `hi`, with underscores for blanks; all around is blank. */
  ghost predicate Stretch(w: string, s: string, lo: nat, hi: nat) {
    lo <= hi <= |s| && |w| == hi - lo && (forall i :: 0 <= i < lo || hi <= i < |s| ==> IsSpace(s[i])) &&
    (lo < hi ==> !IsSpace(s[lo]) && !IsSpace(s[hi - 1])) &&
    forall k :: 0 <= k < |w| ==> w[k] == if s[lo + k] == ' ' then '_' else s[lo + k]
  }

  lemma CleanStretch(s: string) returns (lo: nat, hi: nat)
    ensures Stretch(CleanSample(s), s, lo, hi)
  {
    var r := StripRight(s);
    StripRightPrefix(s);
    lo, hi := StripSlice(r);
    assert forall k :: 0 <= k < hi - lo ==> Strip(r)[k] == s[lo + k];
    assert lo < hi ==> Strip(r)[0] == s[lo] && Strip(r)[hi - lo - 1] == s[hi - 1];
  }

  /** What sanitising does to a valid name: the first two segments in lower case, the sample without
      the blanks around it and with underscores for the blanks inside. */
  lemma SanitizeMeans(f: string) returns (lo: nat, hi: nat, sample: string)
    requires Valid(f)
    ensures |Split(f, DASH)| == 3 && Stretch(sample, Split(f, DASH)[2], lo, hi)
    ensures Sanitize(f) == Lower(Split(f, DASH)[0]) + "-" + Lower(Split(f, DASH)[1]) + "-" + sample
  {
    SanitizedSegments(f);
    sample := CleanSample(Split(f, DASH)[2]);
    lo, hi := CleanStretch(Split(f, DASH)[2]);
  }

  /** Sanitising a valid name again changes nothing. */
  lemma SanitizeIdempotent(f: string)
    requires Valid(f)
    ensures Sanitize(Sanitize(f)) == Sanitize(f)
  {
    SanitizedSegments(f);
    var p := Split(f, DASH);
    var w := CleanSample(p[2]);
    CleanSampleFrom(p[2]);
    CleanSampleFixed(w);
    SanitizeThree(Lower(p[0]), Lower(p[1]), w);
    LettersFree(Lower(p[0]));
    LettersFree(Lower(p[1]));
    ValidSegments(f);
    LettersFree(p[0]);
    LettersFree(p[1]);
  }

  /** A valid name is still valid once sanitised if and only if its sample is not all blanks. */
  lemma SanitizedValidIff(f: string)
    requires Valid(f)
    ensures |Split(f, DASH)| == 3
    ensures Valid(Sanitize(f)) <==> HasText(Split(f, DASH)[2])
  {
    SanitizedSegments(f);
    var p := Split(f, DASH);
    var w := CleanSample(p[2]);
    CleanSampleFrom(p[2]);
    CleanSampleFixed(w);
    LettersFree(Lower(p[0]));
    LettersFree(Lower(p[1]));
    SplitThree(Lower(p[0]), Lower(p[1]), w);
    if w != "" {
      CoreThree(Lower(p[0]), Lower(p[1]), w);
    } else if Matches(Sanitize(f)) {
      ValidSegments(Sanitize(f));
    }
  }

  // ----- the dialog -----

  datatype Dialog = Dialog(name: string, institute: string, sample: string)

  /** The prefix that a dialog's answers, trimmed, stand for. */
  function Typed(d: Dialog): string { Three(Strip(d.name), Strip(d.institute), Strip(d.sample)) }

  lemma ThreePieces(u: string, i: string, s: string)
    requires |Split(Three(u, i, s), DASH)| == 3
    ensures Split(Three(u, i, s), DASH) == [u, i, s]
  {
    TwoDashes(u, i, s);
    SplitThree(u, i, s);
  }

  function Dashes(s: string): nat {
    if s == "" then 0 else Dashes(s[..|s| - 1]) + if s[|s| - 1] == '-' then 1 else 0
  }

  lemma {:induction false} DashesConcat(a: string, b: string)
    ensures Dashes(a + b) == Dashes(a) + Dashes(b)
    decreases |b|
  {
    if b == "" {
      assert a + b == a;
    } else {
      assert (a + b)[..|a + b| - 1] == a + b[..|b| - 1];
      DashesConcat(a, b[..|b| - 1]);
    }
  }

  lemma {:induction false} DashesSplit(s: string)
    ensures |Split(s, DASH)| == Dashes(s) + 1
    decreases |s|
  {
    if s != "" {
      DashesSplit(s[..|s| - 1]);
    }
  }

  lemma {:induction false} DashesFree(s: string)
    requires Dashes(s) == 0
    ensures Free(s, DASH)
    decreases |s|
  {
    if s != "" {
      DashesFree(s[..|s| - 1]);
    }
  }

  lemma TwoDashes(u: string, i: string, s: string)
    requires |Split(Three(u, i, s), DASH)| == 3
    ensures Free(u, DASH) && Free(i, DASH) && Free(s, DASH)
  {
    DashesSplit(Three(u, i, s));
    DashesConcat(u + "-" + i + "-", s);
    DashesConcat(u + "-" + i, "-");
    DashesConcat(u + "-", i);
    DashesConcat(u, "-");
    assert "-"[..0] == "" && Dashes("-") == 1;
    DashesFree(u);
    DashesFree(i);
    DashesFree(s);
  }

  /** A prefix typed into the dialog and accepted: sanitised, it is valid and settled. */
  lemma TypedIsSettled(d: Dialog)
    requires Valid(Typed(d))
    ensures Valid(Sanitize(Typed(d))) && Sanitize(Sanitize(Typed(d))) == Sanitize(Typed(d))
  {
    ValidSegments(Typed(d));
    ThreePieces(Strip(d.name), Strip(d.institute), Strip(d.sample));
    var s := Strip(d.sample);
    var _, _ := StripSlice(d.sample);
    assert s != "" && !IsSpace(s[0]);
    SanitizedValidIff(Typed(d));
    SanitizeIdempotent(Typed(d));
  }
}
