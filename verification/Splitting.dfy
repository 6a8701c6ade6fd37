/** Splitting text at separator characters, and joining the pieces again. */
module Splitting {

  predicate Free(s: string, sep: char -> bool) { forall i :: 0 <= i < |s| ==> !sep(s[i]) }

  ghost predicate AllFree(tokens: seq<string>, sep: char -> bool) {
    forall i :: 0 <= i < |tokens| ==> Free(tokens[i], sep)
  }

  /** The pieces between separators, empty ones included; there is always at least one. */
  function Split(s: string, sep: char -> bool): (r: seq<string>)
    ensures |r| >= 1
    ensures forall i :: 0 <= i < |r| ==> Free(r[i], sep)
  {
    if s == "" then [""]
    else Extend(Split(s[..|s| - 1], sep), s[|s| - 1], sep)
  }

  function Extend(r: seq<string>, c: char, sep: char -> bool): (e: seq<string>)
    requires |r| >= 1
    ensures |e| >= 1
  {
    if sep(c) then r + [""] else r[..|r| - 1] + [r[|r| - 1] + [c]]
  }

  /** The tokens with `seps[i]` between the i-th and the next. */
  function JoinMixed(tokens: seq<string>, seps: seq<char>): string
    requires |tokens| == |seps| + 1
  {
    if seps == [] then tokens[0]
    else JoinMixed(tokens[..|tokens| - 1], seps[..|seps| - 1]) + [seps[|seps| - 1]] + tokens[|tokens| - 1]
  }

  function Repeat(c: char, n: nat): (r: string)
    ensures |r| == n && forall i :: 0 <= i < n ==> r[i] == c
  {
    seq(n, _ => c)
  }

  function Join(tokens: seq<string>, c: char): string
    requires tokens != []
  {
    JoinMixed(tokens, Repeat(c, |tokens| - 1))
  }

  lemma JoinTwo(a: string, c: char, b: string)
    ensures JoinMixed([a, b], [c]) == a + [c] + b
  {
  }

  lemma ExtendLater(first: string, r: seq<string>, c: char, sep: char -> bool)
    requires |r| >= 1
    ensures Extend([first] + r, c, sep) == [first] + Extend(r, c, sep)
  {
    assert ([first] + r)[..|r|] == [first] + r[..|r| - 1];
  }

  lemma SplitSnoc(s: string, c: char, sep: char -> bool)
    ensures Split(s + [c], sep) == Extend(Split(s, sep), c, sep)
  {
    assert (s + [c])[..|s|] == s;
  }

  lemma {:induction false} SplitExtends(s: string, t: string, sep: char -> bool)
    requires Free(t, sep)
    ensures var r := Split(s, sep); Split(s + t, sep) == r[..|r| - 1] + [r[|r| - 1] + t]
    decreases |t|
  {
    var r := Split(s, sep);
    if t == "" {
      assert s + t == s && r[|r| - 1] + t == r[|r| - 1];
    } else {
      var init, c := t[..|t| - 1], t[|t| - 1];
      SplitExtends(s, init, sep);
      assert (s + t)[..|s + t| - 1] == s + init;
      assert (r[|r| - 1] + init) + [c] == r[|r| - 1] + t;
    }
  }

  /** Splitting a join gives the tokens back, whatever separators were used. */
  lemma {:induction false} SplitJoin(tokens: seq<string>, seps: seq<char>, sep: char -> bool)
    requires |tokens| == |seps| + 1 && AllFree(tokens, sep)
    requires forall i :: 0 <= i < |seps| ==> sep(seps[i])
    ensures Split(JoinMixed(tokens, seps), sep) == tokens
    decreases |seps|
  {
    var n := |tokens| - 1;
    if seps == [] {
      SplitExtends("", tokens[0], sep);
      assert "" + tokens[0] == tokens[0];
    } else {
      var init, c, last := JoinMixed(tokens[..n], seps[..n - 1]), seps[n - 1], tokens[n];
      SplitJoin(tokens[..n], seps[..n - 1], sep);
      SplitSnoc(init, c, sep);
      SplitExtends(init + [c], last, sep);
      assert "" + last == last;
      assert tokens == tokens[..n] + [last];
    }
  }

  lemma {:induction false} JoinNonEmpty(tokens: seq<string>, seps: seq<char>)
    requires |tokens| == |seps| + 1 && tokens[0] != ""
    ensures JoinMixed(tokens, seps) != "" && JoinMixed(tokens, seps)[0] == tokens[0][0]
    decreases |seps|
  {
    if seps != [] {
      JoinNonEmpty(tokens[..|tokens| - 1], seps[..|seps| - 1]);
    }
  }

  lemma JoinLast(tokens: seq<string>, seps: seq<char>)
    requires |tokens| == |seps| + 1 && tokens[|tokens| - 1] != ""
    ensures var s, t := JoinMixed(tokens, seps), tokens[|tokens| - 1]; s != "" && s[|s| - 1] == t[|t| - 1]
  {
  }

  /** Characters of a join are characters of the tokens or separators. */
  lemma {:induction false} JoinChars(tokens: seq<string>, seps: seq<char>, ok: char -> bool)
    requires |tokens| == |seps| + 1
    requires forall i :: 0 <= i < |tokens| ==> forall j :: 0 <= j < |tokens[i]| ==> ok(tokens[i][j])
    requires forall i :: 0 <= i < |seps| ==> ok(seps[i])
    ensures forall j :: 0 <= j < |JoinMixed(tokens, seps)| ==> ok(JoinMixed(tokens, seps)[j])
    decreases |seps|
  {
    if seps != [] {
      JoinChars(tokens[..|tokens| - 1], seps[..|seps| - 1], ok);
    }
  }

  lemma SplitWhole(t: string, sep: char -> bool)
    requires Free(t, sep)
    ensures Split(t, sep) == [t]
  {
    SplitExtends("", t, sep);
    assert "" + t == t;
  }

  /** Two separators in a row enclose an empty piece. */
  lemma SplitTwice(a: string, c: char, b: string, sep: char -> bool)
    requires sep(c) && Free(a, sep) && Free(b, sep)
    ensures Split(a + [c] + [c] + b, sep) == [a, "", b]
  {
    SplitWhole(a, sep);
    SplitExtends(a + [c] + [c], b, sep);
    assert "" + b == b;
  }

  /** A leading separator contributes an empty first piece. */
  lemma {:induction false} SplitLeading(c: char, t: string, sep: char -> bool)
    requires sep(c)
    ensures Split([c] + t, sep) == [""] + Split(t, sep)
    decreases |t|
  {
    if t == "" {
      SplitSnoc("", c, sep);
      assert [c] + t == "" + [c];
      assert Split(t, sep) == [""];
    } else {
      var init := t[..|t| - 1];
      SplitLeading(c, init, sep);
      assert ([c] + t)[..|t|] == [c] + init;
      ExtendLater("", Split(init, sep), t[|t| - 1], sep);
    }
  }

  /** Characters of the pieces are characters of the text. */
  lemma {:induction false} SplitChars(s: string, sep: char -> bool, ok: char -> bool)
    requires forall j :: 0 <= j < |s| ==> ok(s[j])
    ensures forall i :: 0 <= i < |Split(s, sep)| ==> forall j :: 0 <= j < |Split(s, sep)[i]| ==> ok(Split(s, sep)[i][j])
    decreases |s|
  {
    if s != "" {
      SplitChars(s[..|s| - 1], sep, ok);
    }
  }

  lemma JoinExtend(r: seq<string>, c: char, d: char, sep: char -> bool)
    requires r != [] && (sep(d) ==> d == c)
    ensures Join(Extend(r, d, sep), c) == Join(r, c) + [d]
  {
    var n := |r| - 1;
    var e := Extend(r, d, sep);
    assert e[..|e| - 1] == if sep(d) then r else r[..n];
    assert |e| == 1 || Repeat(c, |e| - 1)[..|e| - 2] == Repeat(c, |e| - 2);
    if sep(d) {
      assert Join(e, c) == Join(r, c) + [c] + "";
    } else if n > 0 {
      assert Join(r, c) == Join(r[..n], c) + [c] + r[n];
      assert Join(e, c) == Join(r[..n], c) + [c] + (r[n] + [d]);
    }
  }

  /** Joining the pieces of a split gives the text back. */
  lemma {:induction false} JoinSplit(s: string, c: char, sep: char -> bool)
    requires sep(c) && forall d :: sep(d) ==> d == c
    ensures Join(Split(s, sep), c) == s
    decreases |s|
  {
    if s != "" {
      JoinSplit(s[..|s| - 1], c, sep);
      JoinExtend(Split(s[..|s| - 1], sep), c, s[|s| - 1], sep);
    }
  }

  /** A separator at the start, or right behind another one. */
  ghost predicate GapBefore(s: string, sep: char -> bool) {
    exists i :: 0 <= i < |s| && sep(s[i]) && (i == 0 || sep(s[i - 1]))
  }

  lemma GapGrows(s: string, c: char, sep: char -> bool)
    ensures GapBefore(s + [c], sep) <==> GapBefore(s, sep) || (sep(c) && (s == "" || sep(s[|s| - 1])))
  {
    var t := s + [c];
    assert t[|s|] == c && forall i :: 0 <= i < |s| ==> t[i] == s[i];
    if GapBefore(s, sep) {
      var i :| 0 <= i < |s| && sep(s[i]) && (i == 0 || sep(s[i - 1]));
      assert sep(t[i]);
    }
  }

  /** Where a text has empty pieces: before its last piece where separators leave a gap, and at the
      end when it ends in a separator or is empty. */
  lemma {:induction false} EmptyPieces(s: string, sep: char -> bool)
    ensures var r := Split(s, sep);
            ("" in r[..|r| - 1] <==> GapBefore(s, sep)) &&
            (r[|r| - 1] == "" <==> s == "" || sep(s[|s| - 1]))
    decreases |s|
  {
    if s != "" {
      var init, c := s[..|s| - 1], s[|s| - 1];
      var r := Split(init, sep);
      EmptyPieces(init, sep);
      GapGrows(init, c, sep);
      assert s == init + [c];
      assert r == r[..|r| - 1] + [r[|r| - 1]];
      assert Split(s, sep)[..|Split(s, sep)| - 1] == if sep(c) then r else r[..|r| - 1];
    }
  }

  lemma EmptyPieceIff(s: string, sep: char -> bool)
    requires s != ""
    ensures "" in Split(s, sep) <==> GapBefore(s, sep) || sep(s[|s| - 1])
  {
    var r := Split(s, sep);
    EmptyPieces(s, sep);
    assert r == r[..|r| - 1] + [r[|r| - 1]];
  }
}
