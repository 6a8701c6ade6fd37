/** Explaining rejected names, asking the user for better ones, and routing what comes back. */
module RenameFlow {
  import opened Wrappers
  import opened Splitting
  import opened PrefixNaming
  import opened Text

  // ----- explaining a violation -----

  datatype Reason = MissingSeparator | UserOnlyLetters | InstituteOnlyLetters | SampleTooLong | SampleInvalidChars |
      UserCancelled

  datatype Span = Span(lo: nat, hi: nat)

  datatype Analysis = Analysis(valid: bool, reasons: seq<Reason>, spans: seq<Span>)

  /** The `[bad]` characters of one segment that begins at `start`, in order. */
  function Marks(s: string, start: nat, ok: char -> bool): seq<Span> {
    if s == "" then []
    else
      var n := |s| - 1;
      Marks(s[..n], start, ok) + if ok(s[n]) then [] else [Span(start + n, start + n + 1)]
  }

  method MarkSegment(s: string, start: nat, ok: char -> bool) returns (spans: seq<Span>)
    ensures spans == Marks(s, start, ok)
  {
    spans := [];
    for i := 0 to |s|
      invariant spans == Marks(s[..i], start, ok)
    {
      assert s[..i + 1][..i] == s[..i];
      if !ok(s[i]) {
        spans := spans + [Span(start + i, start + i + 1)];
      }
    }
    assert s[..|s|] == s;
  }

  function ReasonIf(violated: bool, r: Reason): seq<Reason> { if violated then [r] else [] }

  predicate SampleText(s: string) { s != "" && SampleChars(s) }

  /** `explain_filename_violation`. */
  function Explain(f: string): Analysis {
    var p := Split(f, DASH);
    if Matches(f) then Analysis(true, [], [])
    else if |p| != 3 then Analysis(false, [MissingSeparator], Marks(f, 0, c => c != '-'))
    else ExplainThree(p[0], p[1], p[2])
  }

  function ExplainThree(u: string, i: string, s: string): Analysis {
    Analysis(
      false,
      ReasonIf(!Letters(u), UserOnlyLetters) + ReasonIf(!Letters(i), InstituteOnlyLetters) +
      ReasonIf(|s| > 30, SampleTooLong) + ReasonIf(!SampleText(s), SampleInvalidChars),
      SegmentMarks(u, 0, IsLetter, Letters(u)) + SegmentMarks(i, |u| + 1, IsLetter, Letters(i)) +
      SegmentMarks(s, |u| + |i| + 2, SampleChar, SampleText(s)))
  }

  function SegmentMarks(s: string, start: nat, ok: char -> bool, fine: bool): seq<Span> {
    if fine then [] else Marks(s, start, ok)
  }

  method ExplainViolation(f: string) returns (a: Analysis)
    ensures a == Explain(f)
  {
    if Matches(f) {
      return Analysis(true, [], []);
    }
    var p := Split(f, DASH);
    if |p| != 3 {
      var spans := MarkSegment(f, 0, c => c != '-');
      return Analysis(false, [MissingSeparator], spans);
    }
    a := ExplainSegments(p[0], p[1], p[2]);
  }

  method ExplainSegments(u: string, i: string, s: string) returns (a: Analysis)
    ensures a == ExplainThree(u, i, s)
  {
    var userSpans := MarkUnless(u, 0, IsLetter, Letters(u));
    var instituteSpans := MarkUnless(i, |u| + 1, IsLetter, Letters(i));
    var sampleSpans := MarkUnless(s, |u| + |i| + 2, SampleChar, SampleText(s));
    var reasons := ReasonIf(!Letters(u), UserOnlyLetters) + ReasonIf(!Letters(i), InstituteOnlyLetters) +
                   ReasonIf(|s| > 30, SampleTooLong) + ReasonIf(!SampleText(s), SampleInvalidChars);
    return Analysis(false, reasons, userSpans + instituteSpans + sampleSpans);
  }

  method MarkUnless(s: string, start: nat, ok: char -> bool, fine: bool) returns (spans: seq<Span>)
    ensures spans == SegmentMarks(s, start, ok, fine)
  {
    spans := [];
    if !fine {
      spans := MarkSegment(s, start, ok);
    }
  }

  /** Every rejected name is given a reason. */
  lemma RejectedHasReason(f: string)
    requires !Matches(f)
    ensures !Explain(f).valid && Explain(f).reasons != []
  {
  }

  predicate AllOf(s: string, ok: char -> bool) { s != "" && forall i :: 0 <= i < |s| ==> ok(s[i]) }

  /** Which reasons a rejected name is given: segments other than three, or what is wrong with each. */
  lemma ReasonsIff(f: string, r: Reason)
    requires !Matches(f)
    ensures var p := Split(f, DASH);
            r in Explain(f).reasons <==>
            match r
            case MissingSeparator => |p| != 3
            case UserOnlyLetters => |p| == 3 && !AllOf(p[0], IsLetter)
            case InstituteOnlyLetters => |p| == 3 && !AllOf(p[1], IsLetter)
            case SampleTooLong => |p| == 3 && |p[2]| > 30
            case SampleInvalidChars => |p| == 3 && !AllOf(p[2], SampleChar)
            case UserCancelled => false
  {
  }

  /** A name without exactly three segments has its separators highlighted; an accepted name has no
      highlights and no reasons. */
  lemma SpansWithoutSegments(f: string, k: nat)
    requires |Split(f, DASH)| != 3
    ensures !Matches(f) ==> (Span(k, k + 1) in Explain(f).spans <==> k < |f| && f[k] == '-')
    ensures Matches(f) ==> Explain(f) == Analysis(true, [], [])
  {
    MarksIff(f, 0, c => c != '-', k);
  }

  /** Position `k` of a three-segment name holds a character its segment does not allow. */
  predicate Offends(f: string, u: string, i: string, k: nat) {
    k < |f| &&
    ((k < |u| && !IsLetter(f[k])) ||
     (|u| + 1 <= k < |u| + 1 + |i| && !IsLetter(f[k])) ||
     (|u| + |i| + 2 <= k && !SampleChar(f[k])))
  }

  lemma {:induction false} MarksIff(s: string, start: nat, ok: char -> bool, k: nat)
    ensures Span(k, k + 1) in Marks(s, start, ok) <==> start <= k < start + |s| && !ok(s[k - start])
    decreases |s|
  {
    if s != "" {
      MarksIff(s[..|s| - 1], start, ok, k);
    }
  }

  lemma {:induction false} MarksAreUnits(s: string, start: nat, ok: char -> bool, m: Span)
    requires m in Marks(s, start, ok)
    ensures m.hi == m.lo + 1
    decreases |s|
  {
    if m in Marks(s[..|s| - 1], start, ok) {
      MarksAreUnits(s[..|s| - 1], start, ok, m);
    }
  }

  lemma SegmentIff(s: string, start: nat, ok: char -> bool, fine: bool, k: nat)
    requires fine ==> forall i :: 0 <= i < |s| ==> ok(s[i])
    ensures Span(k, k + 1) in SegmentMarks(s, start, ok, fine) <==> start <= k < start + |s| && !ok(s[k - start])
  {
    MarksIff(s, start, ok, k);
  }

  lemma ThreeSpansIff(u: string, i: string, s: string, k: nat)
    ensures Span(k, k + 1) in ExplainThree(u, i, s).spans <==> Offends(Three(u, i, s), u, i, k)
  {
    SegmentIff(u, 0, IsLetter, Letters(u), k);
    SegmentIff(i, |u| + 1, IsLetter, Letters(i), k);
    SegmentIff(s, |u| + |i| + 2, SampleChar, SampleText(s), k);
    MergeIff(u, i, s, k, SegmentMarks(u, 0, IsLetter, Letters(u)), SegmentMarks(i, |u| + 1, IsLetter, Letters(i)),
             SegmentMarks(s, |u| + |i| + 2, SampleChar, SampleText(s)));
  }

  lemma MergeIff(u: string, i: string, s: string, k: nat, a: seq<Span>, b: seq<Span>, c: seq<Span>)
    requires Span(k, k + 1) in a <==> k < |u| && !IsLetter(u[k])
    requires Span(k, k + 1) in b <==> |u| + 1 <= k < |u| + 1 + |i| && !IsLetter(i[k - (|u| + 1)])
    requires Span(k, k + 1) in c <==> |u| + |i| + 2 <= k < |u| + |i| + 2 + |s| && !SampleChar(s[k - (|u| + |i| + 2)])
    ensures Span(k, k + 1) in a + b + c <==> Offends(Three(u, i, s), u, i, k)
  {
  }

  lemma SegmentUnits(s: string, start: nat, ok: char -> bool, fine: bool, m: Span)
    requires m in SegmentMarks(s, start, ok, fine)
    ensures m.hi == m.lo + 1
  {
    MarksAreUnits(s, start, ok, m);
  }

  lemma InThree(a: seq<Span>, b: seq<Span>, c: seq<Span>, m: Span)
    requires m in a + b + c
    ensures m in a || m in b || m in c
  {
  }

  lemma ThreeSpansUnits(u: string, i: string, s: string, m: Span)
    requires m in ExplainThree(u, i, s).spans
    ensures m.hi == m.lo + 1
  {
    var a, b := SegmentMarks(u, 0, IsLetter, Letters(u)), SegmentMarks(i, |u| + 1, IsLetter, Letters(i));
    InThree(a, b, SegmentMarks(s, |u| + |i| + 2, SampleChar, SampleText(s)), m);
    if m in a {
      SegmentUnits(u, 0, IsLetter, Letters(u), m);
    } else if m in b {
      SegmentUnits(i, |u| + 1, IsLetter, Letters(i), m);
    } else {
      SegmentUnits(s, |u| + |i| + 2, SampleChar, SampleText(s), m);
    }
  }

  /** For a rejected name of three segments, exactly the offending characters are highlighted. */
  lemma SpansMarkOffenders(f: string, k: nat)
    requires !Matches(f) && |Split(f, DASH)| == 3
    ensures Span(k, k + 1) in Explain(f).spans <==> Offends(f, Split(f, DASH)[0], Split(f, DASH)[1], k)
  {
    var p := Split(f, DASH);
    ThreeOfSplit(f);
    ThreeSpansIff(p[0], p[1], p[2], k);
  }

  /** Every highlighted span of such a name is one character long and within the name. */
  lemma SpansInBounds(f: string, m: Span)
    requires !Matches(f) && |Split(f, DASH)| == 3 && m in Explain(f).spans
    ensures m.hi == m.lo + 1 && m.hi <= |f|
  {
    var p := Split(f, DASH);
    ThreeSpansUnits(p[0], p[1], p[2], m);
    SpansMarkOffenders(f, m.lo);
    OffenderInside(f, p[0], p[1], m.lo);
  }

  lemma OffenderInside(f: string, u: string, i: string, k: nat)
    requires Offends(f, u, i, k)
    ensures k < |f|
  {
  }

  // ----- asking for a name -----

  datatype Decision = Cancel | Answer(values: Dialog)

  /** Naming settings as the flow uses them: what a dialog's answers stand for, and how a prefix
      is validated, sanitised and explained. */
  datatype Naming = Naming(
    typed: Dialog -> string,
    valid: string -> bool,
    sanitize: string -> string,
    explain: string -> Analysis)

  /** The default settings. */
  function DefaultNaming(): Naming { Naming(d => Typed(d), f => Valid(f), f => Sanitize(f), f => Explain(f)) }

  predicate Settled(n: Naming, prefix: string) { n.valid(prefix) && n.sanitize(prefix) == prefix }

  /** `analyze_user_input` on an answer: the sanitised prefix, or the analysis to show. */
  function Analyze(n: Naming, d: Dialog): Result<string, Analysis> {
    if n.valid(n.typed(d)) then Ok(n.sanitize(n.typed(d))) else Err(n.explain(n.typed(d)))
  }

  /** What the flow needs of the settings: accepted answers settle, refused ones get a reason. */
  ghost predicate Lawful(n: Naming) {
    forall d: Dialog ::
      (Analyze(n, d).Ok? ==> Settled(n, Analyze(n, d).value)) &&
      (Analyze(n, d).Err? ==> Analyze(n, d).error.reasons != [])
  }

  /** A refused answer always comes back with a reason. */
  lemma TypedRejected(d: Dialog)
    requires !Valid(Typed(d))
    ensures Explain(Typed(d)).reasons != []
  {
    if Matches(Typed(d)) {
      ValidSegments(Typed(d));
    }
    RejectedHasReason(Typed(d));
  }

  lemma DefaultAnswer(d: Dialog)
    ensures var n := DefaultNaming();
            (Analyze(n, d).Ok? ==> Settled(n, Analyze(n, d).value)) &&
            (Analyze(n, d).Err? ==> Analyze(n, d).error.reasons != [])
  {
    if Valid(Typed(d)) {
      TypedIsSettled(d);
    } else {
      TypedRejected(d);
    }
  }

  /** Under the default settings every accepted answer is valid and a fixed point of sanitising,
      and every refused one is given a reason. */
  lemma DefaultLawful()
    ensures Lawful(DefaultNaming())
  {
    var n := DefaultNaming();
    forall d: Dialog
      ensures Analyze(n, d).Ok? ==> Settled(n, Analyze(n, d).value)
      ensures Analyze(n, d).Err? ==> Analyze(n, d).error.reasons != []
    {
      DefaultAnswer(d);
    }
  }

  datatype Prompt = Prompt(attempted: string, analysis: Analysis, hint: Option<string>)

  datatype Asked = Renamed(prefix: string) | Cancelled | StillAsking

  /** Each prompt after the first gives a reason and no longer carries the contextual hint. */
  ghost predicate Reasoned(prompts: seq<Prompt>) {
    forall i :: 1 <= i < |prompts| ==> prompts[i].analysis.reasons != [] && prompts[i].hint.None?
  }

  predicate Refused(n: Naming, d: Decision) { d.Answer? && !n.valid(n.typed(d.values)) }

  /** The prompt that follows a refused answer shows it as typed, with what is wrong with it. */
  predicate Repeats(n: Naming, d: Decision, p: Prompt) {
    d.Answer? && p.analysis == n.explain(n.typed(d.values)) && p.hint == None &&
    p.attempted == d.values.name + "-" + d.values.institute + "-" + d.values.sample
  }

  /** `obtain_valid_prefix` over the user's decisions; `used` of them are consumed. */
  method ObtainValidPrefix(n: Naming, current: string, hint: Option<string>, decisions: seq<Decision>)
    returns (out: Asked, used: nat, prompts: seq<Prompt>)
    requires Lawful(n)
    ensures used <= |decisions| && (out != StillAsking ==> used >= 1) && Reasoned(prompts)
    ensures prompts != [] ==> prompts[0] == Prompt(current, n.explain(current), hint)
    ensures forall i :: 0 <= i < used - 1 ==> Refused(n, decisions[i])
    ensures |prompts| == used && forall i :: 1 <= i < used ==> Repeats(n, decisions[i - 1], prompts[i])
    ensures out == StillAsking ==> forall i :: 0 <= i < used ==> Refused(n, decisions[i])
    ensures match out
            case Renamed(p) =>
              Settled(n, p) && decisions[used - 1].Answer? &&
              n.valid(n.typed(decisions[used - 1].values)) && p == n.sanitize(n.typed(decisions[used - 1].values))
            case Cancelled => decisions[used - 1] == Cancel
            case StillAsking => used == |decisions|
  {
    var attempted, reasonHint, analysis := current, hint, n.explain(current);
    prompts, used := [], 0;
    while used < |decisions|
      invariant used <= |decisions| && Reasoned(prompts)
      invariant if prompts == [] then attempted == current && analysis == n.explain(current) && reasonHint == hint
                else
                  analysis.reasons != [] && reasonHint.None? && prompts[0] == Prompt(current, n.explain(current), hint)
      invariant forall i :: 0 <= i < used ==> Refused(n, decisions[i])
      invariant |prompts| == used && forall i :: 1 <= i < used ==> Repeats(n, decisions[i - 1], prompts[i])
      invariant used > 0 ==> Repeats(n, decisions[used - 1], Prompt(attempted, analysis, reasonHint))
    {
      prompts := prompts + [Prompt(attempted, analysis, reasonHint)];
      reasonHint := None;
      var decision := decisions[used];
      used := used + 1;
      if decision.Cancel? {
        return Cancelled, used, prompts;
      }
      var result := Analyze(n, decision.values);
      if result.Ok? {
        return Renamed(result.value), used, prompts;
      }
      analysis := result.error;
      attempted := Three(decision.values.name, decision.values.institute, decision.values.sample);
    }
    return StillAsking, used, prompts;
  }

  // ----- routing -----

  datatype Routing = RequireRename | Accept | Unappendable

  /** What the record store and the processor answer for one routing. */
  datatype Records = Records(recordFound: bool, appendable: bool)

  /** There is no record of the prefix yet, or more files may be added to it. */
  predicate Open(w: Records) { w.recordFound ==> w.appendable }

  function DetermineRouting(n: Naming, prefix: string, w: Records): Routing {
    if !n.valid(prefix) then RequireRename
    else if !w.recordFound || w.appendable then Accept
    else Unappendable
  }

  datatype RouteEnd = Processed(prefix: string) | Rejected | Pending

  /** The user cancels, or gives an answer that is accepted and sanitised to nothing. */
  predicate GivesUp(n: Naming, d: Decision) {
    d.Cancel? || (n.valid(n.typed(d.values)) && n.sanitize(n.typed(d.values)) == "")
  }

  /** `sanitize_and_validate`, the prefix alone. */
  function Sanitized(n: Naming, prefix: string): string { if n.valid(prefix) then n.sanitize(prefix) else prefix }

  /** `_route_with_prefix`, `_dispatch_route` and `_invoke_rename_flow`: route a prefix, asking
      for another one as long as it is not accepted. `routings` lists the routing decisions: only
      the first can require a rename, and what is processed after a rename is settled. */
  method Route(n: Naming, prefix: string, decisions: seq<Decision>, world: nat -> Records, depth: nat)
    returns (end: RouteEnd, routings: seq<Routing>)
    requires Lawful(n)
    ensures |routings| >= 1 && (routings[0] == RequireRename <==> !n.valid(prefix))
    ensures forall i :: 1 <= i < |routings| ==> routings[i] != RequireRename
    ensures forall i :: 0 <= i < |routings| ==>
                (routings[i] == Accept ==> Open(world(depth + i))) &&
                (routings[i] == Unappendable ==> !Open(world(depth + i)))
    ensures forall i :: 0 <= i < |routings| - 1 ==> routings[i] != Accept
    ensures end.Processed? <==> routings[|routings| - 1] == Accept
    ensures end.Rejected? ==> exists i :: 0 <= i < |decisions| && GivesUp(n, decisions[i])
    ensures end.Pending? ==> forall i :: 0 <= i < |decisions| ==> !GivesUp(n, decisions[i])
    ensures end.Processed? ==>
              if |routings| == 1 then n.valid(prefix) && end.prefix == n.sanitize(prefix) else Settled(n, end.prefix)
    decreases |decisions|
  {
    var r := DetermineRouting(n, prefix, world(depth));
    routings := [r];
    if r == Accept {
      return Processed(Sanitized(n, prefix)), routings;
    }
    var shown := if r == Unappendable then Sanitized(n, prefix) else prefix;
    var hint := if r == Unappendable then Some("unappendable") else None;
    var asked, used, _ := ObtainValidPrefix(n, shown, hint, decisions);
    match asked
    case StillAsking => end := Pending;
    case Cancelled =>
      assert GivesUp(n, decisions[used - 1]);
      end := Rejected;
    case Renamed(p) =>
      assert p == "" <==> GivesUp(n, decisions[used - 1]);
      if p == "" {
        return Rejected, routings;
      }
      var more;
      end, more := Route(n, p, decisions[used..], world, depth + 1);
      routings := routings + more;
  }

  /** Under the default settings a renamed prefix is never sent back because of its format. */
  lemma RenamedNeverRequiresRename(d: Dialog, w: Records)
    requires Valid(Typed(d))
    ensures DetermineRouting(DefaultNaming(), Sanitize(Typed(d)), w) == if Open(w) then Accept else Unappendable
  {
    TypedIsSettled(d);
  }
}
