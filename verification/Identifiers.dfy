/** Identifiers: tokens joined by separators, parsed from and composed into text. */
module Identifiers {
  import opened Wrappers
  import opened Seqs
  import opened Splitting
  import opened Text

  /** Rules with single-character separators and a token pattern `[class]+`. */
  datatype Rules = Rules(
    primary: char,
    alternates: seq<char>,
    tokenChar: char -> bool,
    minTokens: int,
    maxTokens: Option<int>,
    minLength: int,
    maxLength: Option<int>,
    casefold: bool,
    strip: bool)

  datatype IdError = EmptyInput | BadSeparator | TokenCount | BadCharacter

  datatype Parsed = Parsed(tokens: seq<string>, canonical: string)

  function SepOf(r: Rules): char -> bool { c => c == r.primary || c in r.alternates }

  /** Why the rules themselves are refused, if they are. */
  function RulesError(r: Rules): Option<IdError> {
    if IsSpace(r.primary) || r.primary in r.alternates ||
        (exists i :: 0 <= i < |r.alternates| && IsSpace(r.alternates[i])) ||
       exists i, j :: 0 <= i < j < |r.alternates| && r.alternates[i] == r.alternates[j]
    then Some(BadSeparator)
    else if r.minTokens < 1 || (r.maxTokens.Some? && r.maxTokens.value < r.minTokens) then Some(TokenCount)
    else None
  }

  /** Separators that can be told from blanks and from each other. */
  ghost predicate Usable(seps: seq<char>) { NoDup(seps) && forall i :: 0 <= i < |seps| ==> !IsSpace(seps[i]) }

  method ValidateRules(r: Rules) returns (e: Option<IdError>)
    ensures e == RulesError(r)
    ensures e == Some(BadSeparator) <==> !Usable([r.primary] + r.alternates)
    ensures e.None? <==> Usable([r.primary] + r.alternates) && 1 <= r.minTokens &&
                         (r.maxTokens.Some? ==> r.minTokens <= r.maxTokens.value)
    ensures e.Some? ==> e.value == BadSeparator || e.value == TokenCount
  {
    UsableIff(r);
    if IsSpace(r.primary) {
      return Some(BadSeparator);
    }
    var seen := {};
    for i := 0 to |r.alternates|
      invariant forall c :: c in seen <==> c in r.alternates[..i]
      invariant r.primary !in r.alternates[..i]
      invariant forall k :: 0 <= k < i ==> !IsSpace(r.alternates[k])
      invariant forall j, k :: 0 <= j < k < i ==> r.alternates[j] != r.alternates[k]
    {
      var c := r.alternates[i];
      if IsSpace(c) || c == r.primary || c in seen {
        return Some(BadSeparator);
      }
      seen := seen + {c};
    }
    if r.minTokens < 1 || (r.maxTokens.Some? && r.maxTokens.value < r.minTokens) {
      return Some(TokenCount);
    }
    return None;
  }

  lemma UsableIff(r: Rules)
    ensures RulesError(r) == Some(BadSeparator) <==> !Usable([r.primary] + r.alternates)
  {
    var seps, alts := [r.primary] + r.alternates, r.alternates;
    assert forall i :: 0 <= i < |alts| ==> seps[i + 1] == alts[i];
    if Usable(seps) {
      forall i | 0 <= i < |alts| ensures alts[i] != r.primary && !IsSpace(alts[i]) {
        assert seps[0] != seps[i + 1];
      }
      forall i, j | 0 <= i < j < |alts| ensures alts[i] != alts[j] {
        assert seps[i + 1] != seps[j + 1];
      }
      assert !IsSpace(seps[0]);
    }
    if RulesError(r) != Some(BadSeparator) {
      forall i, j | 0 <= i < j < |seps| ensures seps[i] != seps[j] {
        assert seps[j] == alts[j - 1] && (i > 0 ==> seps[i] == alts[i - 1]);
      }
      forall i | 0 <= i < |seps| ensures !IsSpace(seps[i]) {
        assert i > 0 ==> seps[i] == alts[i - 1];
      }
    }
  }

  predicate TokenOk(r: Rules, t: string) {
    r.minLength <= |t| && (r.maxLength.Some? ==> |t| <= r.maxLength.value) &&
    t != "" && forall i :: 0 <= i < |t| ==> r.tokenChar(t[i])
  }

  predicate CountOk(r: Rules, n: nat) { r.minTokens <= n && (r.maxTokens.Some? ==> n <= r.maxTokens.value) }

  function TokensError(r: Rules, tokens: seq<string>): Option<IdError> {
    if !CountOk(r, |tokens|) then Some(TokenCount)
    else if exists i :: 0 <= i < |tokens| && !TokenOk(r, tokens[i]) then Some(BadCharacter)
    else None
  }

  /** A token that matches the pattern and has an allowed length. */
  ghost predicate Fits(r: Rules, t: string) {
    1 <= |t| && r.minLength <= |t| && (r.maxLength.None? || |t| <= r.maxLength.value) &&
    forall c :: c in t ==> r.tokenChar(c)
  }

  method ValidateTokens(r: Rules, tokens: seq<string>) returns (e: Option<IdError>)
    ensures e == TokensError(r, tokens)
    ensures e == Some(TokenCount) <==>
              |tokens| < r.minTokens || (r.maxTokens.Some? && r.maxTokens.value < |tokens|)
    ensures e.None? ==> forall i :: 0 <= i < |tokens| ==> Fits(r, tokens[i])
    ensures e.Some? && e != Some(TokenCount) ==>
              e == Some(BadCharacter) && exists i :: 0 <= i < |tokens| && !Fits(r, tokens[i])
  {
    if !CountOk(r, |tokens|) {
      return Some(TokenCount);
    }
    for i := 0 to |tokens|
      invariant forall k :: 0 <= k < i ==> TokenOk(r, tokens[k])
    {
      if !TokenOk(r, tokens[i]) {
        return Some(BadCharacter);
      }
    }
    return None;
  }

  function Normalize(r: Rules, s: string): string {
    var t := if r.strip then Strip(s) else s;
    if r.casefold then Lower(t) else t
  }

  function NormalizeWith(r: Rules): string -> string { s => Normalize(r, s) }

  function SplitTokens(r: Rules, text: string): Option<seq<string>> {
    var pieces := Split(text, SepOf(r));
    if "" in pieces then None else Some(Map(pieces, NormalizeWith(r)))
  }

  function Parse(r: Rules, raw: string): Result<Parsed, IdError> {
    if RulesError(r).Some? then Err(RulesError(r).value)
    else if Normalize(r, raw) == "" then Err(EmptyInput)
    else
      var tokens := SplitTokens(r, Normalize(r, raw));
      if tokens.None? then Err(TokenCount) else Judged(r, tokens.value)
  }

  function Judged(r: Rules, tokens: seq<string>): Result<Parsed, IdError> {
    if TokensError(r, tokens).Some? then Err(TokensError(r, tokens).value)
    else if tokens == [] then Ok(Parsed([], ""))
    else Ok(Parsed(tokens, Join(tokens, r.primary)))
  }

  function Compose(r: Rules, tokens: seq<string>): Result<string, IdError> {
    if RulesError(r).Some? then Err(RulesError(r).value)
    else
      var j := Judged(r, Map(tokens, NormalizeWith(r)));
      if j.Err? then Err(j.error) else Ok(j.value.canonical)
  }

  // ----- what is refused -----

  /** Separators at either end, or two in a row. */
  ghost predicate Gapped(r: Rules, text: string) {
    text != "" && (GapBefore(text, SepOf(r)) || SepOf(r)(text[|text| - 1]))
  }

  lemma GappedIff(r: Rules, text: string)
    requires text != ""
    ensures SplitTokens(r, text).None? <==> Gapped(r, text)
  {
    EmptyPieceIff(text, SepOf(r));
  }

  /** With usable rules, a text of which nothing is left is empty input, one with a separator at
      either end, or two in a row, has the wrong count of tokens, and any other is judged by its
      tokens. */
  lemma ParseRefuses(r: Rules, raw: string)
    requires RulesError(r).None?
    ensures Parse(r, raw) == Err(EmptyInput) <==> Normalize(r, raw) == ""
    ensures Gapped(r, Normalize(r, raw)) ==> Parse(r, raw) == Err(TokenCount)
    ensures !Gapped(r, Normalize(r, raw)) && Normalize(r, raw) != "" ==> SplitTokens(r, Normalize(r, raw)).Some?
  {
    var text := Normalize(r, raw);
    if text != "" {
      GappedIff(r, text);
      if !Gapped(r, text) {
        NeverEmptyInput(r, SplitTokens(r, text).value);
      }
    }
  }

  lemma NeverEmptyInput(r: Rules, tokens: seq<string>)
    ensures Judged(r, tokens) != Err(EmptyInput)
  {
  }

  /** Normalising cuts blanks off both ends when asked to, puts what is left in lower case when asked
      to, and does nothing else. */
  lemma NormalizeMeans(r: Rules, s: string) returns (lo: nat, hi: nat)
    ensures lo <= hi <= |s| && (!r.strip ==> lo == 0 && hi == |s|)
    ensures forall i :: 0 <= i < lo || hi <= i < |s| ==> IsSpace(s[i])
    ensures r.strip && lo < hi ==> !IsSpace(s[lo]) && !IsSpace(s[hi - 1])
    ensures |Normalize(r, s)| == hi - lo
    ensures forall i :: lo <= i < hi ==> Normalize(r, s)[i - lo] == if r.casefold then LowerChar(s[i]) else s[i]
  {
    lo, hi := 0, |s|;
    if r.strip {
      lo, hi := StripSlice(s);
    }
  }

  // ----- normalised text -----

  ghost predicate Settled(r: Rules, s: string) { (r.strip ==> Trimmed(s)) && (r.casefold ==> Lower(s) == s) }

  lemma NormalizeSettles(r: Rules, s: string)
    ensures Settled(r, Normalize(r, s))
  {
    if r.strip {
      var _, _ := StripSlice(s);
    }
  }

  /** Tokens as parsing and composing produce them. */
  ghost predicate Accepted(r: Rules, tokens: seq<string>) {
    TokensError(r, tokens).None? && tokens != [] && forall i :: 0 <= i < |tokens| ==> Settled(r, tokens[i])
  }

  function Fold(r: Rules, seps: seq<char>): (f: seq<char>)
    ensures |f| == |seps|
  {
    if r.casefold then Lower(seps) else seps
  }

  lemma {:induction false} LowerJoin(tokens: seq<string>, seps: seq<char>)
    requires |tokens| == |seps| + 1 && forall i :: 0 <= i < |tokens| ==> Lower(tokens[i]) == tokens[i]
    ensures Lower(JoinMixed(tokens, seps)) == JoinMixed(tokens, Lower(seps))
    decreases |seps|
  {
    if seps != [] {
      var n := |seps| - 1;
      LowerJoin(tokens[..n + 1], seps[..n]);
      assert Lower(seps)[..n] == Lower(seps[..n]);
    } else {
      assert Lower(seps) == [];
    }
  }

  lemma NormalText(r: Rules, text: string)
    requires r.strip ==> Trimmed(text)
    ensures Normalize(r, text) == if r.casefold then Lower(text) else text
  {
    if r.strip {
      assert StripLeft(text) == text && StripRight(text) == text;
    }
  }

  lemma JoinTrimmed(r: Rules, tokens: seq<string>, seps: seq<char>)
    requires Accepted(r, tokens) && |tokens| == |seps| + 1
    ensures JoinMixed(tokens, seps) != "" && (r.strip ==> Trimmed(JoinMixed(tokens, seps)))
  {
    var n := |tokens| - 1;
    assert TokenOk(r, tokens[0]) && TokenOk(r, tokens[n]);
    assert Settled(r, tokens[0]) && Settled(r, tokens[n]);
    JoinNonEmpty(tokens, seps);
    JoinLast(tokens, seps);
  }

  lemma JoinLowered(r: Rules, tokens: seq<string>, seps: seq<char>)
    requires Accepted(r, tokens) && |tokens| == |seps| + 1 && r.casefold
    ensures Lower(JoinMixed(tokens, seps)) == JoinMixed(tokens, Lower(seps))
  {
    forall i | 0 <= i < |tokens| ensures Lower(tokens[i]) == tokens[i] {
      assert Settled(r, tokens[i]);
    }
    LowerJoin(tokens, seps);
  }

  /** Joined tokens are normal but for the case of the separators. */
  lemma JoinNormal(r: Rules, tokens: seq<string>, seps: seq<char>)
    requires Accepted(r, tokens) && |tokens| == |seps| + 1
    ensures Normalize(r, JoinMixed(tokens, seps)) == JoinMixed(tokens, Fold(r, seps))
    ensures JoinMixed(tokens, seps) != "" && JoinMixed(tokens, Fold(r, seps)) != ""
  {
    JoinTrimmed(r, tokens, seps);
    JoinTrimmed(r, tokens, Fold(r, seps));
    NormalText(r, JoinMixed(tokens, seps));
    if r.casefold {
      JoinLowered(r, tokens, seps);
    }
  }

  ghost predicate AllSeps(r: Rules, seps: seq<char>) { forall i :: 0 <= i < |seps| ==> SepOf(r)(seps[i]) }

  lemma MapFixed(r: Rules, tokens: seq<string>)
    requires forall i :: 0 <= i < |tokens| ==> Settled(r, tokens[i])
    ensures Map(tokens, NormalizeWith(r)) == tokens
  {
  }

  /** Whatever mix of separators joins accepted tokens, parsing gives the tokens back and the
      canonical form joins them with the primary separator. */
  lemma MixedSeparatorsParse(r: Rules, tokens: seq<string>, seps: seq<char>)
    requires RulesError(r).None? && Accepted(r, tokens) && AllFree(tokens, SepOf(r))
    requires |tokens| == |seps| + 1 && AllSeps(r, Fold(r, seps))
    ensures Parse(r, JoinMixed(tokens, seps)) == Ok(Parsed(tokens, Join(tokens, r.primary)))
  {
    JoinNormal(r, tokens, seps);
    SplitJoin(tokens, Fold(r, seps), SepOf(r));
    MapFixed(r, tokens);
  }

  /** The primary separator is still a separator after case folding. */
  ghost predicate Folds(r: Rules) { r.casefold ==> SepOf(r)(LowerChar(r.primary)) }

  lemma ComposedAccepted(r: Rules, tokens: seq<string>)
    requires Compose(r, tokens).Ok?
    ensures var ts := Map(tokens, NormalizeWith(r));
            RulesError(r).None? && Accepted(r, ts) && Compose(r, tokens) == Ok(Join(ts, r.primary))
  {
    var ts := Map(tokens, NormalizeWith(r));
    forall i | 0 <= i < |ts| ensures Settled(r, ts[i]) {
      NormalizeSettles(r, tokens[i]);
    }
  }

  /** When parsing gives tokens, none of them holds a separator. */
  lemma ParsedFree(r: Rules, raw: string)
    requires Parse(r, raw).Ok?
    ensures var ts := Parse(r, raw).value.tokens;
            Accepted(r, ts) && AllFree(ts, SepOf(r)) && Parse(r, raw).value.canonical == Join(ts, r.primary)
  {
    var text := Normalize(r, raw);
    var pieces, ts := Split(text, SepOf(r)), Parse(r, raw).value.tokens;
    assert ts == Map(pieces, NormalizeWith(r));
    NormalizeSettles(r, raw);
    SplitLowered(r, text);
    forall i | 0 <= i < |ts| ensures Settled(r, ts[i]) && Free(ts[i], SepOf(r)) {
      NormalizeSettles(r, pieces[i]);
      NormalizeFree(r, pieces[i]);
    }
  }

  lemma SplitLowered(r: Rules, text: string)
    requires Settled(r, text)
    ensures r.casefold ==> forall i :: 0 <= i < |Split(text, SepOf(r))| ==>
            Lower(Split(text, SepOf(r))[i]) == Split(text, SepOf(r))[i]
  {
    if r.casefold {
      var low := (c: char) => LowerChar(c) == c;
      forall j | 0 <= j < |text| ensures low(text[j]) {
        assert Lower(text)[j] == text[j];
      }
      SplitChars(text, SepOf(r), low);
      var pieces := Split(text, SepOf(r));
      forall i | 0 <= i < |pieces| ensures Lower(pieces[i]) == pieces[i] {
        assert forall j :: 0 <= j < |pieces[i]| ==> low(pieces[i][j]);
      }
    }
  }

  lemma NormalizeFree(r: Rules, piece: string)
    requires Free(piece, SepOf(r)) && (r.casefold ==> Lower(piece) == piece)
    ensures Free(Normalize(r, piece), SepOf(r))
  {
    var t := if r.strip then Strip(piece) else piece;
    if r.strip {
      var lo, hi := StripSlice(piece);
      if r.casefold {
        assert Lower(piece)[lo..hi] == Lower(piece[lo..hi]);
      }
    }
  }

  /** Composing and then parsing gives back the normalised tokens if and only if none of them
      holds a separator and the primary separator, where there is one, survives case folding. */
  lemma ComposeParseIff(r: Rules, tokens: seq<string>)
    requires Compose(r, tokens).Ok?
    ensures var ts := Map(tokens, NormalizeWith(r));
            Parse(r, Compose(r, tokens).value) == Ok(Parsed(ts, Compose(r, tokens).value)) <==>
            AllFree(ts, SepOf(r)) && (|ts| == 1 || Folds(r))
  {
    var ts := Map(tokens, NormalizeWith(r));
    ComposedAccepted(r, tokens);
    JoinedParseIff(r, ts);
  }

  lemma JoinedParseIff(r: Rules, ts: seq<string>)
    requires RulesError(r).None? && Accepted(r, ts)
    ensures var text := Join(ts, r.primary);
            Parse(r, text) == Ok(Parsed(ts, text)) <==> AllFree(ts, SepOf(r)) && (|ts| == 1 || Folds(r))
  {
    var text, seps := Join(ts, r.primary), Repeat(r.primary, |ts| - 1);
    if AllFree(ts, SepOf(r)) && (|ts| == 1 || Folds(r)) {
      MixedSeparatorsParse(r, ts, seps);
    }
    if Parse(r, text) == Ok(Parsed(ts, text)) {
      ParsedFree(r, text);
      if |ts| > 1 && !Folds(r) {
        UnfoldedIsOnePiece(r, ts);
      }
    }
  }

  lemma UnfoldedText(r: Rules, ts: seq<string>, seps: seq<char>)
    requires |ts| == |seps| + 1 && AllFree(ts, SepOf(r)) && Free(seps, SepOf(r))
    ensures Free(JoinMixed(ts, seps), SepOf(r))
  {
    var plain := (c: char) => !SepOf(r)(c);
    forall i | 0 <= i < |ts| ensures forall j :: 0 <= j < |ts[i]| ==> plain(ts[i][j]) {
      assert Free(ts[i], SepOf(r));
    }
    JoinChars(ts, seps, plain);
  }

  lemma OnePiece(r: Rules, text: string)
    requires Free(text, SepOf(r))
    ensures SplitTokens(r, text).Some? ==> |SplitTokens(r, text).value| == 1
  {
    SplitWhole(text, SepOf(r));
  }

  /** A primary separator lost to case folding leaves joined tokens in one piece. */
  lemma UnfoldedIsOnePiece(r: Rules, ts: seq<string>)
    requires RulesError(r).None? && Accepted(r, ts) && AllFree(ts, SepOf(r)) && !Folds(r)
    ensures Parse(r, Join(ts, r.primary)).Ok? ==> |Parse(r, Join(ts, r.primary)).value.tokens| == 1
  {
    var seps := Repeat(r.primary, |ts| - 1);
    JoinNormal(r, ts, seps);
    UnfoldedText(r, ts, Fold(r, seps));
    OnePiece(r, JoinMixed(ts, Fold(r, seps)));
  }

  /** Parsing a canonical form is the identity, whatever the original looked like, unless case
      folding loses the primary separator. */
  lemma CanonicalIff(r: Rules, raw: string)
    requires Parse(r, raw).Ok?
    ensures var p := Parse(r, raw).value;
            Parse(r, p.canonical) == Ok(p) <==> |p.tokens| == 1 || Folds(r)
  {
    ParsedFree(r, raw);
    JoinedParseIff(r, Parse(r, raw).value.tokens);
  }

  /** The promised round trip: separators outside the token alphabet that case folding keeps. */
  lemma RoundTrip(r: Rules, tokens: seq<string>)
    requires Compose(r, tokens).Ok? && Folds(r)
    requires forall c :: SepOf(r)(c) ==> !r.tokenChar(c)
    ensures Parse(r, Compose(r, tokens).value) == Ok(Parsed(Map(tokens, NormalizeWith(r)), Compose(r, tokens).value))
  {
    var ts := Map(tokens, NormalizeWith(r));
    ComposedAccepted(r, tokens);
    forall i | 0 <= i < |ts| ensures Free(ts[i], SepOf(r)) {
      assert TokenOk(r, ts[i]);
    }
    ComposeParseIff(r, tokens);
  }

  function CapitalSeparator(): Rules {
    Rules('X', [], c => 'a' <= c <= 'z', 1, None, 1, None, true, true)
  }

  /** With case folding, an upper-case separator outside the token alphabet is lost. */
  lemma FoldingLosesSeparator()
    ensures var r := CapitalSeparator();
            Compose(r, ["a", "b"]).Ok? && (forall c :: SepOf(r)(c) ==> !r.tokenChar(c)) &&
            Parse(r, Compose(r, ["a", "b"]).value) != Ok(Parsed(["a", "b"], Compose(r, ["a", "b"]).value))
  {
    var r, ts := CapitalSeparator(), ["a", "b"];
    PlainTokens(r, ts);
    ComposeParseIff(r, ts);
  }

  lemma PlainTokens(r: Rules, ts: seq<string>)
    requires r == CapitalSeparator() && ts == ["a", "b"]
    ensures Compose(r, ts).Ok? && Map(ts, NormalizeWith(r)) == ts && !Folds(r)
  {
    assert Lower("a") == "a" && Lower("b") == "b";
    MapFixed(r, ts);
    assert forall i :: 0 <= i < |ts| ==> TokenOk(r, ts[i]);
  }
}
