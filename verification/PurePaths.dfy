/** Path normalisation: `str(PurePath(text)).replace("\\", "/")` on a POSIX system. */
module PurePaths {
  import opened Splitting
  import Seqs

  const SLASH: char -> bool := c => c == '/'

  datatype Root = Relative | Single | Double

  function RootOf(s: string): Root {
    if |s| >= 1 && s[0] == '/' then
      if |s| >= 2 && s[1] == '/' && (|s| == 2 || s[2] != '/') then Double else Single
    else Relative
  }

  predicate Kept(part: string) { part != "" && part != "." }

  function Parts(s: string): seq<string> { Seqs.Filter(Split(s, SLASH), Kept) }

  function RootText(r: Root): string {
    match r
    case Relative => ""
    case Single => "/"
    case Double => "//"
  }

  function Render(r: Root, parts: seq<string>): string {
    if parts == [] then (if r.Relative? then "." else RootText(r)) else RootText(r) + Join(parts, '/')
  }

  /** `str(PurePosixPath(s))`. */
  function Collapse(s: string): string { Render(RootOf(s), Parts(s)) }

  function Slashes(s: string): (r: string)
    ensures |r| == |s| && forall i :: 0 <= i < |s| ==> r[i] == if s[i] == '\\' then '/' else s[i]
  {
    seq(|s|, i requires 0 <= i < |s| => if s[i] == '\\' then '/' else s[i])
  }

  function Norm(s: string): string { Slashes(Collapse(s)) }

  ghost predicate NoBackslash(s: string) { forall i :: 0 <= i < |s| ==> s[i] != '\\' }

  lemma SlashesIdentity(s: string)
    requires NoBackslash(s)
    ensures Slashes(s) == s
  {
  }

  /** The parts a path object holds: free of separators, neither empty nor a dot. */
  ghost predicate Proper(parts: seq<string>) {
    AllFree(parts, SLASH) && forall i :: 0 <= i < |parts| ==> Kept(parts[i])
  }

  lemma PartsProper(s: string)
    ensures Proper(Parts(s))
  {
  }

  lemma JoinRoot(parts: seq<string>)
    requires Proper(parts) && parts != []
    ensures var s := Join(parts, '/'); s != "" && s[0] != '/'
  {
    assert Kept(parts[0]);
    assert Free(parts[0], SLASH);
    JoinNonEmpty(parts, Repeat('/', |parts| - 1));
    assert !SLASH(parts[0][0]);
  }

  lemma RenderRoot(r: Root, parts: seq<string>)
    requires Proper(parts)
    ensures RootOf(Render(r, parts)) == r
  {
    if parts != [] {
      JoinRoot(parts);
    }
  }

  lemma PartsJoin(parts: seq<string>)
    requires Proper(parts) && parts != []
    ensures Parts(Join(parts, '/')) == parts
  {
    SplitJoin(parts, Repeat('/', |parts| - 1), SLASH);
    Seqs.FilterAll(parts, Kept, (p: string) => !Kept(p));
  }

  lemma SplitSlash(s: string)
    ensures Split("/" + s, SLASH) == [""] + Split(s, SLASH)
  {
    SplitLeading('/', s, SLASH);
    assert ['/'] + s == "/" + s;
  }

  lemma PartsSlash(s: string)
    ensures Parts("/" + s) == Parts(s)
  {
    SplitSlash(s);
    Seqs.FilterConcat([""], Split(s, SLASH), Kept);
    assert [""][..0] == [];
    assert Seqs.Filter([""], Kept) == [];
  }

  lemma PartsRoot(r: Root, s: string)
    ensures Parts(RootText(r) + s) == Parts(s)
  {
    match r
    case Relative => assert RootText(r) + s == s;
    case Single => PartsSlash(s);
    case Double =>
      PartsSlash("/" + s);
      PartsSlash(s);
      assert RootText(r) + s == "/" + ("/" + s);
  }

  lemma PartsNone()
    ensures Parts("") == [] && Parts(".") == []
  {
    SplitWhole("", SLASH);
    SplitWhole(".", SLASH);
    assert [""][..0] == [] && ["."][..0] == [];
  }

  /** Printing a path and parsing it again gives back the same root and parts. */
  lemma RenderParses(r: Root, parts: seq<string>)
    requires Proper(parts)
    ensures RootOf(Render(r, parts)) == r && Parts(Render(r, parts)) == parts
  {
    RenderRoot(r, parts);
    if parts == [] {
      PartsNone();
      PartsRoot(r, "");
      assert RootText(r) + "" == RootText(r);
    } else {
      PartsRoot(r, Join(parts, '/'));
      PartsJoin(parts);
    }
  }

  lemma CollapseIdempotent(s: string)
    ensures Collapse(Collapse(s)) == Collapse(s)
  {
    PartsProper(s);
    RenderParses(RootOf(s), Parts(s));
  }

  lemma CollapseNoBackslash(s: string)
    requires NoBackslash(s)
    ensures NoBackslash(Collapse(s))
  {
    var ok := (c: char) => c != '\\';
    var parts := Parts(s);
    SplitChars(s, SLASH, ok);
    forall i | 0 <= i < |parts| ensures NoBackslash(parts[i]) {
      assert parts[i] in Split(s, SLASH);
    }
    if parts != [] {
      JoinNoBackslash(parts);
    }
  }

  lemma JoinNoBackslash(parts: seq<string>)
    requires parts != [] && forall i :: 0 <= i < |parts| ==> NoBackslash(parts[i])
    ensures NoBackslash(Join(parts, '/'))
  {
    var ok := (c: char) => c != '\\';
    JoinChars(parts, Repeat('/', |parts| - 1), ok);
  }

  /** Normalising text without backslashes reaches its final form at once. */
  lemma NormClean(s: string)
    requires NoBackslash(s)
    ensures Norm(s) == Collapse(s) && Norm(Norm(s)) == Norm(s)
  {
    CollapseNoBackslash(s);
    SlashesIdentity(Collapse(s));
    CollapseIdempotent(s);
  }

  /** Normalising twice settles every path: a third pass changes nothing. */
  lemma NormSettles(s: string)
    ensures Norm(Norm(Norm(s))) == Norm(Norm(s))
  {
    assert NoBackslash(Norm(s));
    NormClean(Norm(s));
  }

  lemma PartsSingle(s: string)
    requires s != "" && s != "." && Free(s, SLASH)
    ensures Parts(s) == [s] && RootOf(s) == Relative
  {
    SplitWhole(s, SLASH);
    Seqs.FilterAll([s], Kept, (p: string) => !Kept(p));
    assert !SLASH(s[0]);
  }

  lemma NormSingle(s: string)
    requires s != "" && s != "." && Free(s, SLASH)
    ensures Norm(s) == Slashes(s)
  {
    PartsSingle(s);
    assert "" + s == s;
  }

  predicate Lone(s: string) {
    s != "" && s != "." && Free(s, SLASH) && forall i :: 0 <= i < |s| ==> s[i] != '\\'
  }

  lemma SplitDouble(a: string, b: string)
    requires Free(a, SLASH) && Free(b, SLASH)
    ensures Split(a + "//" + b, SLASH) == [a] + ([""] + [b])
  {
    SpelledDouble(a, b);
    SplitTwice(a, '/', b, SLASH);
    assert [a, "", b] == [a] + ([""] + [b]);
  }

  lemma SpelledDouble(a: string, b: string)
    ensures a + ['/'] + ['/'] + b == a + "//" + b
  {
  }

  lemma FilterOne(s: string)
    ensures Seqs.Filter([s], Kept) == if Kept(s) then [s] else []
  {
  }

  lemma DoubleSlashParts(a: string, b: string)
    requires Lone(a) && Lone(b)
    ensures Parts(a + "//" + b) == [a, b]
  {
    SplitDouble(a, b);
    Seqs.FilterConcat([a], [""] + [b], Kept);
    Seqs.FilterConcat([""], [b], Kept);
    FilterOne(a);
    FilterOne("");
    FilterOne(b);
  }

  lemma CollapseDouble(a: string, b: string)
    requires Lone(a) && Lone(b)
    ensures Collapse(a + "//" + b) == a + "/" + b
  {
    assert !SLASH(a[0]) && (a + "//" + b)[0] == a[0];
    DoubleSlashParts(a, b);
    JoinTwo(a, '/', b);
    assert Repeat('/', 1) == "/";
    assert "" + (a + "/" + b) == a + "/" + b;
  }

  lemma SlashesDouble(a: string, b: string)
    requires Lone(a) && Lone(b)
    ensures Norm(a + "\\\\" + b) == a + "//" + b
  {
    var s := a + "\\\\" + b;
    NormSingle(s);
    SlashesIdentity(a);
    SlashesIdentity(b);
    assert Slashes(s) == Slashes(a) + "//" + Slashes(b);
  }

  /** One pass does not settle a path whose backslashes hide an empty part. */
  lemma OnePassMaySlip(a: string, b: string)
    requires Lone(a) && Lone(b)
    ensures Norm(a + "\\\\" + b) == a + "//" + b && Norm(a + "//" + b) == a + "/" + b
  {
    SlashesDouble(a, b);
    CollapseDouble(a, b);
    SlashesIdentity(a + "/" + b);
  }

  // ----- when one pass settles a path -----

  const EITHER: char -> bool := c => c == '/' || c == '\\'

  /** Pieces of a settled path: at most two leading empty ones and then neither empty nor a dot,
      or the root alone, or a lone dot. */
  ghost predicate SettledPieces(p: seq<string>) {
    p == ["."] || p == ["", ""] || p == ["", "", ""] ||
    exists k :: 0 <= k <= 2 && LeadingEmpty(p, k)
  }

  ghost predicate LeadingEmpty(p: seq<string>, k: int) {
    0 <= k < |p| && (forall i :: 0 <= i < k ==> p[i] == "") && (forall i :: k <= i < |p| ==> Kept(p[i]))
  }

  /** The pieces of a printed path. */
  function Shape(r: Root, parts: seq<string>): seq<string> {
    if parts == [] then (if r.Relative? then ["."] else if r.Single? then ["", ""] else ["", "", ""])
    else if r.Relative? then parts
    else if r.Single? then [""] + parts
    else [""] + ([""] + parts)
  }

  lemma SplitRooted(r: Root, body: string)
    ensures Split(RootText(r) + body, SLASH) ==
            if r.Relative? then Split(body, SLASH) else if r.Single? then [""] + Split(body, SLASH)
            else [""] + ([""] + Split(body, SLASH))
  {
    match r
    case Relative => assert RootText(r) + body == body;
    case Single => SplitSlash(body);
    case Double =>
      SpelledRoot(body);
      SplitSlash(body);
      SplitSlash("/" + body);
  }

  lemma SpelledRoot(body: string)
    ensures "//" + body == "/" + ("/" + body)
  {
  }

  lemma SplitRender(r: Root, parts: seq<string>)
    requires Proper(parts)
    ensures Split(Render(r, parts), SLASH) == Shape(r, parts)
  {
    if parts == [] {
      SplitWhole("", SLASH);
      SplitWhole(".", SLASH);
      SplitRooted(r, "");
      assert RootText(r) + "" == RootText(r);
    } else {
      SplitJoin(parts, Repeat('/', |parts| - 1), SLASH);
      SplitRooted(r, Join(parts, '/'));
    }
  }

  lemma SplitDetermines(a: string, b: string)
    requires Split(a, SLASH) == Split(b, SLASH)
    ensures a == b
  {
    JoinSplit(a, '/', SLASH);
    JoinSplit(b, '/', SLASH);
  }

  lemma ShapeSettled(r: Root, parts: seq<string>)
    requires Proper(parts)
    ensures SettledPieces(Shape(r, parts))
  {
    if parts != [] {
      assert LeadingEmpty(Shape(r, parts), if r.Relative? then 0 else if r.Single? then 1 else 2);
    }
  }

  /** Every settled list of separator-free pieces is that of a printed path. */
  lemma SettledShape(p: seq<string>) returns (r: Root, parts: seq<string>)
    requires SettledPieces(p) && AllFree(p, SLASH)
    ensures Proper(parts) && p == Shape(r, parts)
  {
    if p == ["."] {
      r, parts := Relative, [];
    } else if p == ["", ""] {
      r, parts := Single, [];
    } else if p == ["", "", ""] {
      r, parts := Double, [];
    } else {
      var k :| 0 <= k <= 2 && LeadingEmpty(p, k);
      r, parts := if k == 0 then Relative else if k == 1 then Single else Double, p[k..];
      assert forall i :: 0 <= i < |parts| ==> parts[i] == p[k + i];
    }
  }

  /** A path's text is its own printed form if and only if its pieces are settled. */
  lemma CollapsedIff(t: string)
    ensures Collapse(t) == t <==> SettledPieces(Split(t, SLASH))
  {
    PartsProper(t);
    if Collapse(t) == t {
      SplitRender(RootOf(t), Parts(t));
      ShapeSettled(RootOf(t), Parts(t));
    }
    if SettledPieces(Split(t, SLASH)) {
      var r, parts := SettledShape(Split(t, SLASH));
      SplitRender(r, parts);
      SplitDetermines(t, Render(r, parts));
      RenderParses(r, parts);
    }
  }

  /** Turning backslashes into slashes splits the text where either kind stood. */
  lemma {:induction false} SplitSlashes(s: string)
    ensures Split(Slashes(s), SLASH) == Split(s, EITHER)
    decreases |s|
  {
    if s != "" {
      SplitSlashes(s[..|s| - 1]);
      assert Slashes(s)[..|s| - 1] == Slashes(s[..|s| - 1]);
    }
  }

  /** One pass settles a path if and only if, cut at slashes and backslashes alike, its printed
      form has no empty or dot piece beyond at most two leading slashes. */
  lemma OnePassSettlesIff(s: string)
    ensures Norm(Norm(s)) == Norm(s) <==> SettledPieces(Split(Collapse(s), EITHER))
  {
    assert NoBackslash(Norm(s));
    NormClean(Norm(s));
    SplitSlashes(Collapse(s));
    CollapsedIff(Norm(s));
  }
}
