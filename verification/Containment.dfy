/** What the force-path policy's prefix test says about where a path really leads. */
module Containment {
  import opened Splitting
  import opened PurePaths
  import Seqs
  import Text
  import S = IngestionStages

  // ----- the test, part by part -----

  lemma ExtendBehind(a: seq<string>, r: seq<string>, c: char, sep: char -> bool)
    requires |r| >= 1
    ensures Extend(a + r, c, sep) == a + Extend(r, c, sep)
  {
  }

  lemma Regroup(head: string, init: string, d: char, t: string)
    requires init + [d] == t
    ensures (head + init) + [d] == head + t
  {
  }

  /** Text behind a separator splits on its own. */
  lemma {:induction false} SplitBehind(head: string, first: seq<string>, t: string, sep: char -> bool)
    requires Split(head, sep) == first + [""]
    ensures Split(head + t, sep) == first + Split(t, sep)
    decreases |t|
  {
    if t == "" {
      assert head + t == head;
    } else {
      var init, d := t[..|t| - 1], t[|t| - 1];
      SplitBehind(head, first, init, sep);
      Regroup(head, init, d, t);
      ExtendBehind(first, Split(init, sep), d, sep);
    }
  }

  lemma PartsConcat(s: string, t: string)
    ensures Parts(s + ['/'] + t) == Parts(s) + Parts(t)
  {
    SplitBehind(s + ['/'], Split(s, SLASH), t, SLASH);
    Seqs.FilterConcat(Split(s, SLASH), Split(t, SLASH), Kept);
  }

  lemma {:induction false} PartsStripped(s: string)
    ensures Parts(S.RStripSlash(s)) == Parts(s)
    decreases |s|
  {
    if s != "" && s[|s| - 1] == '/' {
      var init := s[..|s| - 1];
      PartsStripped(init);
      PartsConcat(init, "");
      PartsNone();
      assert init + ['/'] + "" == s;
    }
  }

  /** `s.lower()` part by part. */
  function LowerAll(parts: seq<string>): seq<string> { Seqs.Map(parts, Text.Lower) }

  lemma {:induction false} SplitLower(s: string)
    ensures Split(Text.Lower(s), SLASH) == LowerAll(Split(s, SLASH))
    decreases |s|
  {
    if s != "" {
      var init, c := s[..|s| - 1], s[|s| - 1];
      var r := Split(init, SLASH);
      SplitLower(init);
      assert Text.Lower(s)[..|s| - 1] == Text.Lower(init);
      ExtendLower(r, c);
    }
  }

  lemma ExtendLower(r: seq<string>, c: char)
    requires |r| >= 1
    ensures Extend(LowerAll(r), Text.LowerChar(c), SLASH) == LowerAll(Extend(r, c, SLASH))
  {
    var n := |r| - 1;
    assert Text.Lower(r[n] + [c]) == Text.Lower(r[n]) + [Text.LowerChar(c)];
    assert LowerAll(r)[..n] == LowerAll(r[..n]);
  }

  lemma {:induction false} KeptLower(pieces: seq<string>)
    ensures Seqs.Filter(LowerAll(pieces), Kept) == LowerAll(Seqs.Filter(pieces, Kept))
    decreases |pieces|
  {
    if pieces != [] {
      var n := |pieces| - 1;
      KeptLower(pieces[..n]);
      assert LowerAll(pieces)[..n] == LowerAll(pieces[..n]);
      KeptSame(pieces[n]);
    }
  }

  lemma KeptSame(part: string)
    ensures Kept(Text.Lower(part)) == Kept(part)
  {
    assert part == "." <==> |part| == 1 && part[0] == '.';
    assert Text.Lower(part) == "." <==> |part| == 1 && Text.LowerChar(part[0]) == '.';
  }

  lemma PartsLower(s: string)
    ensures Parts(Text.Lower(s)) == LowerAll(Parts(s))
  {
    SplitLower(s);
    KeptLower(Split(s, SLASH));
  }

  /** The parts of a path as the code moves files to it. */
  function PathParts(path: string): seq<string> { Parts(Norm(path)) }

  /** Equal but for the case of letters. */
  predicate SameButCase(a: seq<string>, b: seq<string>) {
    |a| == |b| && forall i :: 0 <= i < |a| ==> Text.Lower(a[i]) == Text.Lower(b[i])
  }

  /** A path that passes the test begins with the root's parts, but for case. */
  lemma UnderRootBegins(path: string, root: string)
    requires S.UnderRoot(path, root)
    ensures var p, r := PathParts(path), PathParts(root);
            |r| <= |p| && SameButCase(p[..|r|], r)
  {
    var lp, lr := Text.Lower(Norm(path)), Text.Lower(Norm(root));
    PartsStripped(lp);
    PartsStripped(lr);
    var rest := TextContinues(S.RStripSlash(lp), S.RStripSlash(lr));
    PartsLower(Norm(path));
    PartsLower(Norm(root));
    BeginsBut(PathParts(path), PathParts(root), rest);
  }

  lemma BeginsBut(p: seq<string>, r: seq<string>, rest: seq<string>)
    requires LowerAll(p) == LowerAll(r) + rest
    ensures |r| <= |p| && SameButCase(p[..|r|], r)
  {
    assert |LowerAll(p)| == |r| + |rest|;
    forall i | 0 <= i < |r| ensures Text.Lower(p[i]) == Text.Lower(r[i]) {
      assert LowerAll(p)[i] == (LowerAll(r) + rest)[i] == LowerAll(r)[i];
    }
  }

  lemma TextContinues(p: string, r: string) returns (rest: seq<string>)
    requires p == r || r + "/" <= p
    ensures Parts(p) == Parts(r) + rest
  {
    if p == r {
      rest := [];
    } else {
      var x := p[|r| + 1..];
      assert p == r + ['/'] + x;
      PartsConcat(r, x);
      rest := Parts(x);
    }
  }

  /** Whether a path starts at the top of the file system. */
  predicate Absolute(path: string) { !RootOf(Norm(path)).Relative? }

  lemma {:induction false} StripHead(t: string)
    requires t != ""
    ensures var s := S.RStripSlash(t); if s == "" then t[0] == '/' else s[0] == t[0]
  {
    if t[|t| - 1] == '/' && |t| > 1 {
      StripHead(t[..|t| - 1]);
    }
  }

  lemma NormNonEmpty(s: string)
    ensures Norm(s) != ""
  {
    PartsProper(s);
    if Parts(s) != [] {
      JoinRoot(Parts(s));
    }
  }

  lemma AbsoluteIff(s: string)
    ensures Norm(s) != "" && (Absolute(s) <==> Text.Lower(Norm(s))[0] == '/')
  {
    NormNonEmpty(s);
  }

  /** Paths that pass the test start where the root starts. */
  lemma SameStart(path: string, root: string)
    requires S.UnderRoot(path, root)
    ensures Absolute(path) == Absolute(root)
  {
    AbsoluteIff(path);
    AbsoluteIff(root);
    StripHead(Text.Lower(Norm(path)));
    StripHead(Text.Lower(Norm(root)));
  }

  // ----- where a path leads -----

  const UP := ".."

  /** One part further: a name goes down, ".." goes up. At the top ".." stays there; above the start
      of a relative path it is kept. */
  function Walk(top: bool, at: seq<string>, part: string): seq<string> {
    if part != UP then at + [part]
    else if at != [] && at[|at| - 1] != UP then at[..|at| - 1]
    else if top then at
    else at + [UP]
  }

  /** Where the first `n` of `parts` lead from `start`. */
  function Reached(top: bool, start: seq<string>, parts: seq<string>, n: nat): seq<string>
    requires n <= |parts|
  {
    if n == 0 then start else Walk(top, Reached(top, start, parts, n - 1), parts[n - 1])
  }

  function Resolved(top: bool, parts: seq<string>): seq<string> { Reached(top, [], parts, |parts|) }

  /** A place at or below `base`. */
  predicate Inside(base: seq<string>, at: seq<string>) {
    base <= at && forall i :: |base| <= i < |at| ==> at[i] != UP
  }

  /** How far below its start the walk is after `n` parts; negative above it. */
  function Depth(rest: seq<string>, n: nat): int
    requires n <= |rest|
  {
    if n == 0 then 0 else Depth(rest, n - 1) + if rest[n - 1] == UP then -1 else 1
  }

  /** None of the first `n` parts climbs above the start. */
  ghost predicate NeverClimbs(rest: seq<string>, n: nat)
    requires n <= |rest|
  {
    if n == 0 then true else NeverClimbs(rest, n - 1) && Depth(rest, n) >= 0
  }

  /** None of the first `n` parts leads outside `base`. */
  ghost predicate NeverLeaves(top: bool, base: seq<string>, rest: seq<string>, n: nat)
    requires n <= |rest|
  {
    Inside(base, Reached(top, base, rest, n)) && (n > 0 ==> NeverLeaves(top, base, rest, n - 1))
  }

  /** A walk that never climbs above its start stays below it, at its depth. */
  lemma {:induction false} WalkBelow(top: bool, base: seq<string>, rest: seq<string>, n: nat)
    requires n <= |rest| && NeverClimbs(rest, n)
    ensures Inside(base, Reached(top, base, rest, n))
    ensures |Reached(top, base, rest, n)| == |base| + Depth(rest, n) && Depth(rest, n) >= 0
  {
    if n > 0 {
      WalkBelow(top, base, rest, n - 1);
    }
  }

  /** Below a root other than the top, a walk never leaves the root if and only if none of its ".."
      parts climbs above it. */
  lemma {:induction false} NeverLeavesIff(top: bool, base: seq<string>, rest: seq<string>, n: nat)
    requires !(top && base == []) && (forall i :: 0 <= i < |base| && top ==> base[i] != UP) && n <= |rest|
    ensures NeverLeaves(top, base, rest, n) <==> NeverClimbs(rest, n)
  {
    if n > 0 {
      NeverLeavesIff(top, base, rest, n - 1);
      if NeverClimbs(rest, n - 1) {
        WalkBelow(top, base, rest, n - 1);
        StepInsideIff(top, base, Reached(top, base, rest, n - 1), rest[n - 1]);
      }
    }
  }

  lemma StepInsideIff(top: bool, base: seq<string>, at: seq<string>, part: string)
    requires Inside(base, at) && !(top && base == []) && (top ==> forall i :: 0 <= i < |base| ==> base[i] != UP)
    ensures Inside(base, Walk(top, at, part)) <==> part != UP || |at| > |base|
  {
    var next := Walk(top, at, part);
    if part == UP && |at| == |base| {
      assert at == base;
      assert |next| < |base| || next[|base|] == UP;
    }
  }

  /** At the top there is nothing to leave. */
  lemma {:induction false} TopHoldsAll(parts: seq<string>, n: nat)
    requires n <= |parts|
    ensures forall i :: 0 <= i < |Reached(true, [], parts, n)| ==> Reached(true, [], parts, n)[i] != UP
    ensures NeverLeaves(true, [], parts, n)
  {
    if n > 0 {
      TopHoldsAll(parts, n - 1);
    }
  }

  /** Walks over parts that differ in case only have the same length. */
  lemma {:induction false} SameShape(top: bool, p: seq<string>, q: seq<string>, n: nat)
    requires SameButCase(p, q) && n <= |p|
    ensures var a, b := Reached(top, [], p, n), Reached(top, [], q, n);
            |a| == |b| && forall i :: 0 <= i < |a| ==> (a[i] == UP <==> b[i] == UP)
  {
    if n > 0 {
      SameShape(top, p, q, n - 1);
      UpSame(p[n - 1]);
      UpSame(q[n - 1]);
    }
  }

  lemma UpSame(part: string)
    ensures Text.Lower(part) == UP <==> part == UP
  {
    assert part == UP <==> |part| == 2 && part[0] == '.' && part[1] == '.';
    assert Text.Lower(part) == UP <==> |part| == 2 && Text.LowerChar(part[0]) == '.' && Text.LowerChar(part[1]) == '.';
  }

  lemma {:induction false} WalkPrefix(top: bool, p: seq<string>, m: nat, n: nat)
    requires n <= m <= |p|
    ensures Reached(top, [], p[..m], n) == Reached(top, [], p, n)
  {
    if n > 0 {
      WalkPrefix(top, p, m, n - 1);
    }
  }

  lemma {:induction false} WalkOn(top: bool, p: seq<string>, m: nat, n: nat)
    requires m + n <= |p|
    ensures Reached(top, [], p, m + n) == Reached(top, Reached(top, [], p, m), p[m..], n)
  {
    if n > 0 {
      WalkOn(top, p, m, n - 1);
    }
  }

  // ----- when a path that passes the test stays under its root -----

  /** From its m-th part on, the path is always at or below `base`. */
  ghost predicate StaysInside(top: bool, base: seq<string>, p: seq<string>, m: nat) {
    forall n :: m <= n <= |p| ==> InsideAt(top, base, p, n)
  }

  ghost predicate InsideAt(top: bool, base: seq<string>, p: seq<string>, n: int)
    requires 0 <= n <= |p|
  {
    Inside(base, Reached(top, [], p, n))
  }

  lemma {:induction false} StaysIff(top: bool, base: seq<string>, p: seq<string>, m: nat, n: nat)
    requires m + n <= |p| && base == Reached(top, [], p, m)
    ensures (forall k :: m <= k <= m + n ==> InsideAt(top, base, p, k)) <==> NeverLeaves(top, base, p[m..], n)
  {
    WalkOn(top, p, m, n);
    assert InsideAt(top, base, p, m + n) <==> Inside(base, Reached(top, base, p[m..], n));
    if n > 0 {
      StaysIff(top, base, p, m, n - 1);
      assert (forall k :: m <= k <= m + n ==> InsideAt(top, base, p, k)) <==>
             (forall k :: m <= k <= m + (n - 1) ==> InsideAt(top, base, p, k)) && InsideAt(top, base, p, m + n);
    }
  }

  /** Where the root leads. */
  function RootPlace(root: string): seq<string> { Resolved(Absolute(root), PathParts(root)) }

  /** The path reaches the root with its first parts and never leaves it afterwards. */
  ghost predicate ForGood(top: bool, p: seq<string>, r: seq<string>) {
    |r| <= |p| && StaysInside(top, Resolved(top, r), p, |r|)
  }

  /** What a caller can check: the path's first parts lead where the root's do, case included, and no
      ".." after them climbs above it. */
  ghost predicate TrueToRoot(top: bool, p: seq<string>, r: seq<string>) {
    |r| <= |p| && Resolved(top, p[..|r|]) == Resolved(top, r) && NeverClimbs(p[|r|..], |p| - |r|)
  }

  /** A path that passes the test leads into the root and never leaves it if and only if the root is
      the top of the file system, or the path's first parts lead where the root's do, case included,
      and no ".." after them climbs above it. */
  lemma UnderRootForGoodIff(path: string, root: string)
    requires S.UnderRoot(path, root)
    ensures |PathParts(root)| <= |PathParts(path)| && SameButCase(PathParts(path)[..|PathParts(root)|], PathParts(root))
    ensures Absolute(path) == Absolute(root)
    ensures ForGood(Absolute(root), PathParts(path), PathParts(root)) <==>
            (Absolute(root) && RootPlace(root) == []) || TrueToRoot(Absolute(root), PathParts(path), PathParts(root))
  {
    UnderRootBegins(path, root);
    SameStart(path, root);
    PartsForGoodIff(Absolute(root), PathParts(path), PathParts(root));
  }

  lemma PartsForGoodIff(top: bool, p: seq<string>, r: seq<string>)
    requires |r| <= |p| && SameButCase(p[..|r|], r)
    ensures ForGood(top, p, r) <==> (top && Resolved(top, r) == []) || TrueToRoot(top, p, r)
  {
    var base, m, k := Resolved(top, r), |r|, |p| - |r|;
    SameShape(top, p[..m], r, m);
    WalkPrefix(top, p, m, m);
    var at := Reached(top, [], p, m);
    assert at == Resolved(top, p[..m]) && |at| == |base|;
    if at == base {
      StaysIff(top, base, p, m, k);
      if top {
        TopHoldsAll(r, m);
      }
      if top && base == [] {
        TopForGood(p, m);
      } else {
        NeverLeavesIff(top, base, p[m..], k);
      }
    } else {
      assert !InsideAt(top, base, p, m);
    }
  }

  lemma TopForGood(p: seq<string>, m: nat)
    requires m <= |p|
    ensures StaysInside(true, [], p, m)
  {
    forall n | m <= n <= |p| ensures InsideAt(true, [], p, n) {
      TopHoldsAll(p, n);
    }
  }

  // ----- paths that pass the test and lead elsewhere -----

  lemma PlainNorm(r: Root, parts: seq<string>)
    requires Proper(parts) && NoBackslash(Render(r, parts))
    ensures Norm(Render(r, parts)) == Render(r, parts) && PathParts(Render(r, parts)) == parts
    ensures RootOf(Norm(Render(r, parts))) == r
  {
    RenderParses(r, parts);
    SlashesIdentity(Render(r, parts));
  }

  /** A name as a part: no separators, not a dot or two. */
  predicate PartName(s: string) { Lone(s) && s != UP }

  lemma LoneRoot(a: string, root: string)
    requires PartName(a) && root == "/" + a
    ensures Norm(root) == root && PathParts(root) == [a] && Absolute(root)
  {
    assert Proper([a]);
    assert Render(Single, [a]) == root;
    PlainNorm(Single, [a]);
  }

  lemma RenderedTwo(a: string, x: string)
    ensures Render(Single, [a, x]) == ("/" + a) + "/" + x
  {
    JoinTwo(a, '/', x);
    assert Repeat('/', 1) == "/";
  }

  lemma RenderedThree(a: string, u: string, b: string)
    ensures Render(Single, [a, u, b]) == ("/" + a) + "/" + (u + "/" + b)
  {
    JoinTwo(a, '/', u);
    assert [a, u, b][..2] == [a, u] && Repeat('/', 2)[..1] == "/" && Repeat('/', 2)[1] == '/';
    assert Repeat('/', 2)[..1] == ['/'];
  }

  /** The prefix test looks at the text alone, in lower case. */
  lemma PrefixPasses(path: string, root: string, x: string)
    requires Norm(root) == root && Norm(path) == path && Text.Lower(path) == Text.Lower(root) + "/" + Text.Lower(x)
    requires root != "" && root[|root| - 1] != '/' && x != "" && x[|x| - 1] != '/'
    ensures S.UnderRoot(path, root)
  {
    var p, r := Text.Lower(path), Text.Lower(root);
    assert r[|r| - 1] == Text.LowerChar(root[|root| - 1]) != '/';
    assert p[|p| - 1] == Text.LowerChar(x[|x| - 1]) != '/';
  }

  lemma LastNoSlash(s: string)
    requires Lone(s)
    ensures s[|s| - 1] != '/'
  {
    assert !SLASH(s[|s| - 1]);
  }

  lemma WalkOne(a: string)
    requires a != UP
    ensures Resolved(true, [a]) == [a]
  {
    assert Reached(true, [], [a], 0) == [];
  }

  lemma WalkBack(a: string, b: string)
    requires a != UP && b != UP
    ensures Resolved(true, [a, UP, b]) == [b]
  {
    var p := [a, UP, b];
    assert Reached(true, [], p, 1) == [a];
    assert Reached(true, [], p, 2) == [];
  }

  /** "/a/../b" passes the test for the root "/a" and leads to "/b". */
  lemma DotDotEscapes(a: string, b: string, root: string, path: string)
    requires PartName(a) && PartName(b) && a != b && root == "/" + a && path == root + "/" + (UP + "/" + b)
    ensures S.UnderRoot(path, root) && RootPlace(root) == [a] && Resolved(true, PathParts(path)) == [b]
  {
    LoneRoot(a, root);
    DotDotPath(a, b, path);
    DotDotPasses(a, b, root, UP + "/" + b, path);
    WalkOne(a);
    WalkBack(a, b);
  }

  lemma DotDotPath(a: string, b: string, path: string)
    requires PartName(a) && PartName(b) && path == ("/" + a) + "/" + (UP + "/" + b)
    ensures Norm(path) == path && PathParts(path) == [a, UP, b]
  {
    RenderedThree(a, UP, b);
    assert Proper([a, UP, b]);
    PlainNorm(Single, [a, UP, b]);
  }

  lemma DotDotPasses(a: string, b: string, root: string, tail: string, path: string)
    requires PartName(a) && PartName(b) && root == "/" + a && tail == UP + "/" + b && path == root + "/" + tail
    requires Norm(root) == root && Norm(path) == path
    ensures S.UnderRoot(path, root)
  {
    LastNoSlash(a);
    LastNoSlash(b);
    LowerSplits(root, tail);
    PrefixPasses(path, root, tail);
  }

  lemma LowerSplits(root: string, x: string)
    ensures Text.Lower(root + "/" + x) == Text.Lower(root) + "/" + Text.Lower(x)
  {
  }

  lemma LowerRoots(a: string, b: string)
    requires Text.Lower(a) == Text.Lower(b)
    ensures Text.Lower("/" + a) == Text.Lower("/" + b)
  {
  }

  lemma WalkDown(a: string, b: string)
    requires a != UP && b != UP
    ensures Resolved(true, [a, b]) == [a, b]
  {
    assert Reached(true, [], [a, b], 1) == [a];
  }

  /** "/A/x" passes the test for the root "/a" and is never under it. */
  lemma CaseEscapes(a: string, other: string, x: string, root: string, path: string)
    requires PartName(a) && PartName(other) && PartName(x) && other != a && Text.Lower(other) == Text.Lower(a)
    requires root == "/" + a && path == ("/" + other) + "/" + x
    ensures S.UnderRoot(path, root) && RootPlace(root) == [a] && PathParts(path) == [other, x]
    ensures !Inside(RootPlace(root), Resolved(true, PathParts(path)))
  {
    LoneRoot(a, root);
    CasePath(other, x, path);
    CasePasses(a, other, x, root, path);
    WalkOne(a);
    WalkDown(other, x);
  }

  lemma CasePath(other: string, x: string, path: string)
    requires PartName(other) && PartName(x) && path == ("/" + other) + "/" + x
    ensures Norm(path) == path && PathParts(path) == [other, x]
  {
    RenderedTwo(other, x);
    assert Proper([other, x]);
    PlainNorm(Single, [other, x]);
  }

  lemma CasePasses(a: string, other: string, x: string, root: string, path: string)
    requires PartName(a) && PartName(x) && Text.Lower(other) == Text.Lower(a)
    requires root == "/" + a && path == ("/" + other) + "/" + x && Norm(root) == root && Norm(path) == path
    ensures S.UnderRoot(path, root)
  {
    LastNoSlash(a);
    LastNoSlash(x);
    LowerSplits("/" + other, x);
    LowerRoots(a, other);
    PrefixPasses(path, root, x);
  }
}
