/** A stack of settings sources: last writer wins, and the provenance names that writer. */
module SettingsLayers {
  import opened Wrappers
  import opened SettingsMerge

  /** A named source; its payload is a mapping. */
  datatype Source = Source(name: string, tree: Value)

  const NOTHING := Node(map[])

  ghost predicate Mappings(sources: seq<Source>) { forall i :: 0 <= i < |sources| ==> sources[i].tree.Node? }

  /** The merged payload, or `None` when two layers disagree on what is a mapping. */
  function MergeAll(sources: seq<Source>): (m: Option<Value>)
    requires forall i :: 0 <= i < |sources| ==> sources[i].tree.Node?
    ensures m.Some? ==> m.value.Node?
  {
    if sources == [] then Some(NOTHING)
    else
      var below, top := MergeAll(sources[..|sources| - 1]), sources[|sources| - 1].tree;
      if below.Some? && Compatible(below.value, top) then Some(Merge(below.value, top)) else None
  }

  /** Nothing below a compatible stack is incompatible. */
  lemma {:induction false} MergesBelow(sources: seq<Source>, i: nat)
    requires Mappings(sources) && i <= |sources| && MergeAll(sources).Some?
    ensures MergeAll(sources[..i]).Some?
    decreases |sources|
  {
    if i < |sources| {
      assert sources[..|sources| - 1][..i] == sources[..i];
      MergesBelow(sources[..|sources| - 1], i);
    } else {
      assert sources[..i] == sources;
    }
  }

  /** The last source whose merge wrote the provenance string `s`. */
  ghost function Author(sources: seq<Source>, s: Dotted): (a: Option<nat>)
    requires Mappings(sources)
    ensures a.Some? ==> a.value < |sources|
  {
    if sources == [] then None
    else
      var below, n := sources[..|sources| - 1], |sources| - 1;
      if MergeAll(below).Some? &&
          Writes(MergeAll(below).value, sources[n].tree, "", s) then Some(n) else Author(below, s)
  }

  ghost predicate ProvenanceOf(sources: seq<Source>, provenance: map<Dotted, string>)
    requires Mappings(sources)
  {
    forall s :: (s in provenance <==> Author(sources, s).Some?) &&
                (s in provenance ==> provenance[s] == sources[Author(sources, s).value].name)
  }

  lemma AuthorOneMore(sources: seq<Source>, n: nat, before: map<Dotted, string>, after: map<Dotted, string>)
    requires Mappings(sources) && n < |sources| && MergeAll(sources[..n]).Some?
    requires ProvenanceOf(sources[..n], before)
    requires Blamed(before, after, MergeAll(sources[..n]).value, sources[n].tree, "", sources[n].name)
    ensures ProvenanceOf(sources[..n + 1], after)
  {
    var now := sources[..n + 1];
    assert now[..n] == sources[..n];
    forall s ensures Author(now, s) == if Writes(MergeAll(sources[..n]).value, sources[n].tree, "", s) then Some(n)
                                       else Author(sources[..n], s)
    {
    }
  }

  /** The n-th source clashes, at this path, with what the sources below it make. */
  ghost predicate ClashesAt(sources: seq<Source>, n: nat, path: Dotted)
    requires Mappings(sources) && n < |sources|
  {
    MergeAll(sources[..n]).Some? && NamesClash(MergeAll(sources[..n]).value, sources[n].tree, "", path)
  }

  /** `_merge_sources`: the loop over the sources in their fixed order. */
  method MergeSources(sources: seq<Source>) returns (r: Result<Merged, MergeError>)
    requires Mappings(sources)
    ensures r.Ok? <==> MergeAll(sources).Some?
    ensures r.Ok? ==> r.value.value == MergeAll(sources).value && ProvenanceOf(sources, r.value.provenance)
    ensures r.Err? ==> exists n :: 0 <= n < |sources| && ClashesAt(sources, n, r.error.path)
  {
    var merged: Value, provenance: map<Dotted, string> := NOTHING, map[];
    for n := 0 to |sources|
      invariant MergeAll(sources[..n]) == Some(merged)
      invariant ProvenanceOf(sources[..n], provenance)
    {
      assert sources[..n + 1][..n] == sources[..n];
      var step := DeepMerge(merged, sources[n].tree, sources[n].name, provenance, "");
      if step.Err? {
        if MergeAll(sources).Some? {
          MergesBelow(sources, n + 1);
          assert false;
        }
        assert ClashesAt(sources, n, step.error.path);
        return Err(step.error);
      }
      AuthorOneMore(sources, n, provenance, step.value.provenance);
      merged, provenance := step.value.value, step.value.provenance;
    }
    assert sources[..|sources|] == sources;
    r := Ok(Merged(merged, provenance));
  }

  // ----- leaves -----

  function LeafAt(v: Value, path: seq<string>): Option<string>
    decreases |path|
  {
    match v
    case Leaf(text) => if path == [] then Some(text) else None
    case Node(m) => if path != [] && path[0] in m then LeafAt(m[path[0]], path[1..]) else None
  }

  predicate Has(v: Value, path: seq<string>)
    decreases |path|
  {
    path == [] || (v.Node? && path[0] in v.entries && Has(v.entries[path[0]], path[1..]))
  }

  lemma {:induction false} MergeLeaf(t: Value, i: Value, path: seq<string>)
    requires t.Node? && i.Node? && Compatible(t, i)
    ensures LeafAt(Merge(t, i), path) == if LeafAt(i, path).Some? then LeafAt(i, path) else LeafAt(t, path)
    decreases |path|
  {
    if path != [] {
      var k := path[0];
      if k in t.entries && k in i.entries && i.entries[k].Node? {
        MergeLeaf(t.entries[k], i.entries[k], path[1..]);
      }
    }
  }

  lemma {:induction false} MergeHas(t: Value, i: Value, path: seq<string>)
    requires t.Node? && i.Node? && Compatible(t, i)
    ensures Has(t, path) || Records(t, i, path) ==> Has(Merge(t, i), path)
    decreases |path|
  {
    if path != [] {
      var k := path[0];
      if k in t.entries && k in i.entries && i.entries[k].Node? {
        MergeHas(t.entries[k], i.entries[k], path[1..]);
      } else if k in i.entries {
        assert Merge(t, i).entries[k] == i.entries[k];
        assert |path| == 1 ==> path[1..] == [];
        assert k in t.entries && Has(t.entries[k], path[1..]) ==> path[1..] == [];
      } else if k in t.entries {
        assert Merge(t, i).entries[k] == t.entries[k];
      }
    }
  }

  /** The last source that defines a leaf at `path`. */
  function LastDefining(sources: seq<Source>, path: seq<string>): (d: Option<nat>)
    ensures d.Some? ==> d.value < |sources| && LeafAt(sources[d.value].tree, path).Some?
  {
    if sources == [] then None
    else if LeafAt(sources[|sources| - 1].tree, path).Some? then Some(|sources| - 1)
    else LastDefining(sources[..|sources| - 1], path)
  }

  /** Last writer wins: the merged payload has a leaf exactly where some source has one, and its
      value is that of the last such source. */
  lemma {:induction false} LastWriterWins(sources: seq<Source>, path: seq<string>)
    requires Mappings(sources) && MergeAll(sources).Some?
    ensures var d := LastDefining(sources, path);
            LeafAt(MergeAll(sources).value, path) == if d.Some? then LeafAt(sources[d.value].tree, path) else None
    decreases |sources|
  {
    if sources != [] {
      var below := sources[..|sources| - 1];
      LastWriterWins(below, path);
      MergeLeaf(MergeAll(below).value, sources[|sources| - 1].tree, path);
    }
  }

  // ----- blame, path by path -----

  /** The last source whose merge recorded `path`. */
  function Owner(sources: seq<Source>, path: seq<string>): (a: Option<nat>)
    requires forall i :: 0 <= i < |sources| ==> sources[i].tree.Node?
    ensures a.Some? ==> a.value < |sources|
  {
    if sources == [] then None
    else
      var below, n := sources[..|sources| - 1], |sources| - 1;
      if MergeAll(below).Some? &&
          Records(MergeAll(below).value, sources[n].tree, path) then Some(n) else Owner(below, path)
  }

  /** Owner of the longest recorded prefix of `path` with at most `k` keys. */
  function OwnerUpTo(sources: seq<Source>, path: seq<string>, k: nat): (o: Option<nat>)
    requires forall i :: 0 <= i < |sources| ==> sources[i].tree.Node?
    requires k <= |path|
    ensures o.Some? ==> o.value < |sources|
  {
    if k == 0 then None
    else if Owner(sources, path[..k]).Some? then Owner(sources, path[..k])
    else OwnerUpTo(sources, path, k - 1)
  }

  lemma {:induction false} OwnedExists(sources: seq<Source>, path: seq<string>)
    requires Mappings(sources) && MergeAll(sources).Some? && Owner(sources, path).Some?
    ensures Has(MergeAll(sources).value, path)
    decreases |sources|
  {
    var below, n := sources[..|sources| - 1], |sources| - 1;
    MergeHas(MergeAll(below).value, sources[n].tree, path);
    if !Records(MergeAll(below).value, sources[n].tree, path) {
      OwnedExists(below, path);
    }
  }

  /** A leaf of the incoming side has one recorded prefix, and nothing longer was there before. */
  lemma {:induction false} RecordedPrefix(t: Value, i: Value, path: seq<string>) returns (k: nat)
    requires t.Node? && i.Node? && Compatible(t, i) && LeafAt(i, path).Some?
    ensures 1 <= k <= |path| && Records(t, i, path[..k])
    ensures forall m :: k < m <= |path| ==> !Has(t, path[..m]) && !Records(t, i, path[..m])
    decreases |path|
  {
    var key := path[0];
    if key in t.entries && t.entries[key].Node? && i.entries[key].Node? {
      var rest := RecordedPrefix(t.entries[key], i.entries[key], path[1..]);
      k := rest + 1;
      assert path[..k][1..] == path[1..][..rest];
      forall m | k < m <= |path| ensures !Has(t, path[..m]) && !Records(t, i, path[..m]) {
        assert path[..m][1..] == path[1..][..m - 1];
      }
    } else {
      k := 1;
      forall m | k < m <= |path| ensures !Has(t, path[..m]) && !Records(t, i, path[..m]) {
        assert path[..m][1..] == path[1..][..m - 1];
      }
    }
  }

  /** A merge records no prefix of a leaf that only the target has. */
  lemma {:induction false} UntouchedLeaf(t: Value, i: Value, path: seq<string>, m: nat)
    requires t.Node? && i.Node? && Compatible(t, i)
    requires LeafAt(t, path).Some? && LeafAt(i, path).None? && m <= |path|
    ensures !Records(t, i, path[..m])
    decreases |path|
  {
    if m > 0 {
      var key := path[0];
      assert path[..m][0] == key && path[..m][1..] == path[1..][..m - 1];
      if key in i.entries && i.entries[key].Node? {
        UntouchedLeaf(t.entries[key], i.entries[key], path[1..], m - 1);
      }
    }
  }

  lemma {:induction false} OwnerStops(sources: seq<Source>, path: seq<string>, k: nat, n: nat, m: nat)
    requires Mappings(sources) && 1 <= k <= m <= |path| && Owner(sources, path[..k]) == Some(n)
    requires forall j :: k < j <= |path| ==> Owner(sources, path[..j]).None?
    ensures OwnerUpTo(sources, path, m) == Some(n)
    decreases m
  {
    if m > k {
      OwnerStops(sources, path, k, n, m - 1);
    }
  }

  lemma {:induction false} OwnerUnchanged(sources: seq<Source>, path: seq<string>, m: nat)
    requires Mappings(sources) && sources != [] && m <= |path|
    requires forall j :: 0 <= j <= m ==> Owner(sources, path[..j]) == Owner(sources[..|sources| - 1], path[..j])
    ensures OwnerUpTo(sources, path, m) == OwnerUpTo(sources[..|sources| - 1], path, m)
    decreases m
  {
    if m > 0 {
      OwnerUnchanged(sources, path, m - 1);
    }
  }

  /** The longest recorded prefix of every leaf belongs to the last source that defines the leaf. */
  lemma {:induction false} OwnerIsLastDefining(sources: seq<Source>, path: seq<string>)
    requires Mappings(sources) && MergeAll(sources).Some? && LastDefining(sources, path).Some?
    ensures OwnerUpTo(sources, path, |path|) == LastDefining(sources, path)
    decreases |sources|
  {
    var n := |sources| - 1;
    var below, t, i := sources[..n], MergeAll(sources[..n]).value, sources[n].tree;
    if LeafAt(i, path).Some? {
      var k := RecordedPrefix(t, i, path);
      forall j | k < j <= |path| ensures Owner(sources, path[..j]).None? {
        if Owner(below, path[..j]).Some? {
          OwnedExists(below, path[..j]);
        }
      }
      OwnerStops(sources, path, k, n, |path|);
    } else {
      OwnerIsLastDefining(below, path);
      LastWriterWins(below, path);
      forall j | 0 <= j <= |path| ensures Owner(sources, path[..j]) == Owner(below, path[..j]) {
        UntouchedLeaf(t, i, path, j);
      }
      OwnerUnchanged(sources, path, |path|);
    }
  }

  // ----- blame as the code spells it -----

  /** A key whose dotted spelling can be read back: not empty and without a dot. */
  predicate CleanKey(k: string) { k != "" && '.' !in k }

  /** All keys of a tree are among `keys`. */
  ghost predicate OverTree(keys: iset<string>, v: Value)
    decreases v
  {
    v.Node? ==> forall k :: k in v.entries ==> k in keys && OverTree(keys, v.entries[k])
  }

  ghost predicate OverPath(keys: iset<string>, path: seq<string>) { forall i :: 0 <= i < |path| ==> path[i] in keys }

  /** Two paths over `keys` are spelled alike only if they are the same. */
  ghost predicate Unambiguous(keys: iset<string>) {
    forall p, q :: OverPath(keys, p) && OverPath(keys, q) && SpelledAlike(p, q) ==> p == q
  }

  ghost predicate SpelledAlike(p: seq<string>, q: seq<string>) {
    p != [] && q != [] && DottedFrom("", p) == DottedFrom("", q)
  }

  ghost predicate CleanPath(path: seq<string>) { forall i :: 0 <= i < |path| ==> CleanKey(path[i]) }

  function Join(path: seq<string>): Dotted
    requires path != []
    decreases |path|
  {
    if |path| == 1 then path[0] else path[0] + "." + Join(path[1..])
  }

  lemma {:induction false} DottedIsJoin(prefix: Dotted, path: seq<string>)
    requires path != [] && CleanPath(path)
    ensures DottedFrom(prefix, path) == if prefix == "" then Join(path) else prefix + "." + Join(path)
    decreases |path|
  {
    var full := FullPath(prefix, path[0]);
    if |path| == 1 {
      assert path[1..] == [];
    } else {
      assert CleanKey(path[0]);
      DottedIsJoin(full, path[1..]);
      assert (prefix + "." + path[0]) + "." + Join(path[1..]) == prefix + "." + (path[0] + "." + Join(path[1..]));
    }
  }

  /** The first key of a joined path ends at the first dot. */
  lemma JoinHead(path: seq<string>)
    requires path != [] && CleanPath(path)
    ensures path[0] <= Join(path) && (|path| == 1 <==> |Join(path)| == |path[0]|)
    ensures forall j :: 0 <= j < |path[0]| ==> Join(path)[j] != '.'
    ensures |path| > 1 ==> |Join(path)| > |path[0]| && Join(path)[|path[0]|] == '.' &&
                           Join(path)[|path[0]| + 1..] == Join(path[1..])
  {
  }

  lemma {:induction false} JoinInjective(p: seq<string>, q: seq<string>)
    requires p != [] && q != [] && CleanPath(p) && CleanPath(q) && Join(p) == Join(q)
    ensures p == q
    decreases |p|
  {
    JoinHead(p);
    JoinHead(q);
    var s, a, b := Join(p), |p[0]|, |q[0]|;
    assert CleanKey(p[0]) && CleanKey(q[0]);
    assert s[..a] == p[0] && s[..b] == q[0];
    assert a == b;
    if |p| > 1 {
      JoinInjective(p[1..], q[1..]);
      assert p == [p[0]] + p[1..] && q == [q[0]] + q[1..];
    }
  }

  /** Keys that are not empty and have no dot are never ambiguous. */
  lemma CleanUnambiguous(keys: iset<string>)
    requires forall k :: k in keys ==> CleanKey(k)
    ensures Unambiguous(keys)
  {
    forall p, q | OverPath(keys, p) && OverPath(keys, q) && SpelledAlike(p, q) ensures p == q {
      DottedIsJoin("", p);
      DottedIsJoin("", q);
      JoinInjective(p, q);
    }
  }

  lemma {:induction false} RecordedIsOver(keys: iset<string>, t: Value, i: Value, path: seq<string>)
    requires t.Node? && i.Node? && OverTree(keys, i) && Records(t, i, path)
    ensures OverPath(keys, path)
    decreases |path|
  {
    if path[0] in t.entries && t.entries[path[0]].Node? && i.entries[path[0]].Node? {
      RecordedIsOver(keys, t.entries[path[0]], i.entries[path[0]], path[1..]);
    }
  }

  /** With unambiguous keys the string written for a path identifies the path. */
  lemma WritesIffRecords(keys: iset<string>, t: Value, i: Value, path: seq<string>)
    requires t.Node? && i.Node? && Unambiguous(keys) && OverTree(keys, i) && path != [] && OverPath(keys, path)
    ensures Writes(t, i, "", DottedFrom("", path)) <==> Records(t, i, path)
  {
    if Writes(t, i, "", DottedFrom("", path)) {
      var q :| Records(t, i, q) && DottedFrom("", q) == DottedFrom("", path);
      RecordedIsOver(keys, t, i, q);
      assert SpelledAlike(q, path);
    }
  }

  ghost predicate OverSources(keys: iset<string>, sources: seq<Source>) {
    forall i :: 0 <= i < |sources| ==> OverTree(keys, sources[i].tree)
  }

  lemma {:induction false} AuthorIsOwner(keys: iset<string>, sources: seq<Source>, path: seq<string>)
    requires Mappings(sources) && Unambiguous(keys) && OverSources(keys, sources) && path != [] && OverPath(keys, path)
    ensures Author(sources, DottedFrom("", path)) == Owner(sources, path)
    decreases |sources|
  {
    if sources != [] {
      var n := |sources| - 1;
      AuthorIsOwner(keys, sources[..n], path);
      if MergeAll(sources[..n]).Some? {
        WritesIffRecords(keys, MergeAll(sources[..n]).value, sources[n].tree, path);
      }
    }
  }

  /** The provenance entry of the longest recorded prefix with at most `k` keys. */
  function Blame(provenance: map<Dotted, string>, path: seq<string>, k: nat): Option<string>
    requires k <= |path|
  {
    if k == 0 then None
    else if DottedFrom("", path[..k]) in provenance then Some(provenance[DottedFrom("", path[..k])])
    else Blame(provenance, path, k - 1)
  }

  lemma {:induction false} BlameIsOwner(
    keys: iset<string>, sources: seq<Source>, provenance: map<Dotted, string>, path: seq<string>, k: nat)
    requires Mappings(sources) && Unambiguous(keys) && OverSources(keys, sources) && OverPath(keys, path) && k <= |path|
    requires ProvenanceOf(sources, provenance)
    ensures var o := OwnerUpTo(sources, path, k);
            Blame(provenance, path, k) == if o.Some? then Some(sources[o.value].name) else None
    decreases k
  {
    if k > 0 {
      AuthorIsOwner(keys, sources, path[..k]);
      BlameIsOwner(keys, sources, provenance, path, k - 1);
    }
  }

  lemma {:induction false} LeafPathOver(keys: iset<string>, v: Value, path: seq<string>)
    requires OverTree(keys, v) && LeafAt(v, path).Some?
    ensures OverPath(keys, path)
    decreases |path|
  {
    if v.Node? {
      LeafPathOver(keys, v.entries[path[0]], path[1..]);
    }
  }

  /** The longest recorded prefix of the leaf's path names the last source that defines the leaf. */
  ghost predicate RightlyBlamed(sources: seq<Source>, provenance: map<Dotted, string>, path: seq<string>) {
    var d := LastDefining(sources, path);
    d.Some? && Blame(provenance, path, |path|) == Some(sources[d.value].name)
  }

  /** Correct blame: over unambiguous keys every leaf of the merged settings has the value of the
      last source that defines it, and the longest recorded prefix of its path names that source. */
  lemma BlameIsRight(keys: iset<string>, sources: seq<Source>, provenance: map<Dotted, string>, path: seq<string>)
    requires Mappings(sources) && MergeAll(sources).Some? && ProvenanceOf(sources, provenance)
    requires Unambiguous(keys) && OverSources(keys, sources) && LeafAt(MergeAll(sources).value, path).Some?
    ensures RightlyBlamed(sources, provenance, path)
    ensures LeafAt(MergeAll(sources).value, path) == LeafAt(sources[LastDefining(sources, path).value].tree, path)
  {
    LastWriterWins(sources, path);
    LeafPathOver(keys, sources[LastDefining(sources, path).value].tree, path);
    OwnerIsLastDefining(sources, path);
    BlameIsOwner(keys, sources, provenance, path, |path|);
  }

  // ----- what ambiguous keys lead to -----

  /** The tree whose only path leads to `v`. */
  function Nest(path: seq<string>, v: Value): (t: Value)
    ensures path != [] ==> t.Node? && path[0] in t.entries
    decreases |path|
  {
    if path == [] then v else Node(map[path[0] := Nest(path[1..], v)])
  }

  lemma {:induction false} NestLeaf(path: seq<string>, text: string, q: seq<string>)
    ensures LeafAt(Nest(path, Leaf(text)), q) == if q == path then Some(text) else None
    decreases |path|
  {
    if path != [] {
      if q != [] && q[0] == path[0] {
        NestLeaf(path[1..], text, q[1..]);
        assert q == [q[0]] + q[1..] && path == [path[0]] + path[1..];
      }
    }
  }

  lemma {:induction false} NestOver(keys: iset<string>, path: seq<string>, v: Value)
    requires OverPath(keys, path) && OverTree(keys, v)
    ensures OverTree(keys, Nest(path, v))
    decreases |path|
  {
    if path != [] {
      NestOver(keys, path[1..], v);
    }
  }

  /** Everything of `path` but its last key is there, as mappings; the last key is not. */
  ghost predicate Open(t: Value, path: seq<string>)
    decreases |path|
  {
    t.Node? && path != [] &&
    if |path| == 1 then path[0] !in t.entries else path[0] in t.entries && Open(t.entries[path[0]], path[1..])
  }

  lemma {:induction false} OpenRecords(t: Value, path: seq<string>, text: string)
    requires Open(t, path)
    ensures Compatible(t, Nest(path, Leaf(text))) && Records(t, Nest(path, Leaf(text)), path)
    decreases |path|
  {
    if |path| > 1 {
      OpenRecords(t.entries[path[0]], path[1..], text);
    }
  }

  lemma {:induction false} OpenStart(path: seq<string>)
    requires path != []
    ensures Nest(path[..|path| - 1], NOTHING).Node? && Open(Nest(path[..|path| - 1], NOTHING), path)
    decreases |path|
  {
    if |path| > 1 {
      OpenStart(path[1..]);
      assert path[..|path| - 1][1..] == path[1..][..|path| - 2];
    }
  }

  /** Neither path leads on to the other. */
  ghost predicate Apart(p: seq<string>, q: seq<string>) { !(p <= q) && !(q <= p) }

  /** Adding a leaf apart from an open path leaves the path open. */
  lemma {:induction false} OpenStays(p: seq<string>, q: seq<string>, text: string)
    requires p != [] && q != [] && Apart(p, q)
    ensures var base := Nest(p[..|p| - 1], NOTHING);
            base.Node? && Compatible(base, Nest(q, Leaf(text))) && Open(Merge(base, Nest(q, Leaf(text))), p)
    decreases |p|
  {
    var base, leaf := Nest(p[..|p| - 1], NOTHING), Nest(q, Leaf(text));
    OpenStart(p);
    if p[0] == q[0] {
      assert p == [p[0]] + p[1..] && q == [q[0]] + q[1..];
      assert Apart(p[1..], q[1..]);
      assert p[..|p| - 1][1..] == p[1..][..|p| - 2];
      OpenStays(p[1..], q[1..], text);
    } else if |p| > 1 {
      assert Merge(base, leaf).entries[p[0]] == base.entries[p[0]];
    }
  }

  /** Three sources: one opens the way to `p`, the next sets `q`, the last sets `p`. */
  function Confusing(p: seq<string>, q: seq<string>): seq<Source>
    requires p != []
  {
    [Source("defaults", Nest(p[..|p| - 1], NOTHING)), Source("file", Nest(q, Leaf("old"))),
        Source("cli", Nest(p, Leaf("new")))]
  }

  lemma MergeNothing(t: Value)
    requires t.Node?
    ensures Compatible(NOTHING, t) && Merge(NOTHING, t) == t
  {
  }

  lemma ConfusingMerges(p: seq<string>, q: seq<string>)
    requires p != [] && q != [] && Apart(p, q)
    ensures var sources := Confusing(p, q);
            Mappings(sources) && MergeAll(sources).Some? && MergeAll(sources[..2]).Some? &&
            Records(MergeAll(sources[..2]).value, sources[2].tree, p)
  {
    var sources := Confusing(p, q);
    var base, middle := sources[0].tree, sources[1].tree;
    OpenStart(p);
    MergeNothing(base);
    OpenStays(p, q, "old");
    assert sources[..2][..1] == sources[..1] && sources[..1][..0] == [];
    assert MergeAll(sources[..1]) == Some(base);
    assert MergeAll(sources[..2]) == Some(Merge(base, middle));
    OpenRecords(Merge(base, middle), p, "new");
    assert sources[..3] == sources;
  }

  /** Two paths that are spelled alike, neither leading on to the other: the leaf at one of them is
      blamed on the source that wrote the other. */
  lemma Misblamed(p: seq<string>, q: seq<string>, provenance: map<Dotted, string>)
    requires SpelledAlike(p, q) && Apart(p, q)
    requires Mappings(Confusing(p, q)) && ProvenanceOf(Confusing(p, q), provenance)
    ensures MergeAll(Confusing(p, q)).Some? && LastDefining(Confusing(p, q), q) == Some(1)
    ensures LeafAt(MergeAll(Confusing(p, q)).value, q).Some?
    ensures Blame(provenance, q, |q|) == Some("cli") && !RightlyBlamed(Confusing(p, q), provenance, q)
  {
    var sources := Confusing(p, q);
    ConfusingMerges(p, q);
    NestLeaf(p, "new", q);
    NestLeaf(q, "old", q);
    assert sources[..2][|sources[..2]| - 1] == sources[1];
    LastWriterWins(sources, q);
    assert Writes(MergeAll(sources[..2]).value, sources[2].tree, "", DottedFrom("", p));
    assert Author(sources, DottedFrom("", p)) == Some(2);
    assert q[..|q|] == q;
  }

  // ----- every stack has its provenance -----

  /** The strings a merge writes. */
  ghost function Written(t: Value, i: Value, prefix: Dotted): set<Dotted>
    requires t.Node? && i.Node?
    decreases i
  {
    set k, s | k in i.entries && s in WrittenAt(t, i, prefix, k) :: s
  }

  ghost function WrittenAt(t: Value, i: Value, prefix: Dotted, k: string): set<Dotted>
    requires t.Node? && i.Node? && k in i.entries
    decreases i, 0
  {
    if k in t.entries && t.entries[k].Node? && i.entries[k].Node?
    then Written(t.entries[k], i.entries[k], FullPath(prefix, k))
    else {FullPath(prefix, k)}
  }

  lemma {:induction false} WrittenIff(t: Value, i: Value, prefix: Dotted, s: Dotted)
    requires t.Node? && i.Node?
    ensures s in Written(t, i, prefix) <==> Writes(t, i, prefix, s)
    decreases i
  {
    forall k | k in i.entries ensures s in WrittenAt(t, i, prefix, k) <==> WritesAt(t, i, k, prefix, s) {
      if k in t.entries && t.entries[k].Node? && i.entries[k].Node? {
        WrittenIff(t.entries[k], i.entries[k], FullPath(prefix, k), s);
      }
    }
    if s in Written(t, i, prefix) {
      var k :| k in i.entries && s in WrittenAt(t, i, prefix, k);
      WritesThrough(t, i, k, prefix, s);
    }
    if Writes(t, i, prefix, s) {
      var path :| Records(t, i, path) && DottedFrom(prefix, path) == s;
      WritesVia(t, i, prefix, path);
    }
  }

  lemma WritesVia(t: Value, i: Value, prefix: Dotted, path: seq<string>)
    requires t.Node? && i.Node? && Records(t, i, path)
    ensures path[0] in i.entries && WritesAt(t, i, path[0], prefix, DottedFrom(prefix, path))
  {
  }

  lemma {:induction false} ProvenanceExists(sources: seq<Source>) returns (provenance: map<Dotted, string>)
    requires Mappings(sources)
    ensures ProvenanceOf(sources, provenance)
    decreases |sources|
  {
    if sources == [] {
      provenance := map[];
    } else {
      var n := |sources| - 1;
      var before := ProvenanceExists(sources[..n]);
      if MergeAll(sources[..n]).None? {
        provenance := before;
      } else {
        var t, i, name := MergeAll(sources[..n]).value, sources[n].tree, sources[n].name;
        var w := Written(t, i, "");
        provenance := map s | s in before.Keys + w :: if s in w then name else before[s];
        forall s ensures s in w <==> Writes(t, i, "", s) {
          WrittenIff(t, i, "", s);
        }
        AuthorOneMore(sources, n, before, provenance);
        assert sources[..n + 1] == sources;
      }
    }
  }

  // ----- exactly when the blame is right -----

  lemma {:induction false} DottedLonger(prefix: Dotted, path: seq<string>)
    requires path != [] && "" !in path
    ensures |DottedFrom(prefix, path)| > |prefix|
    decreases |path|
  {
    if |path| > 1 {
      assert path[0] != "";
      DottedLonger(FullPath(prefix, path[0]), path[1..]);
    } else {
      assert path[1..] == [] && path[0] != "";
    }
  }

  lemma {:induction false} DottedSplits(prefix: Dotted, path: seq<string>, k: nat)
    requires k <= |path|
    ensures DottedFrom(prefix, path) == DottedFrom(DottedFrom(prefix, path[..k]), path[k..])
    decreases k
  {
    if k > 0 {
      DottedSplits(FullPath(prefix, path[0]), path[1..], k - 1);
      assert path[..k][1..] == path[1..][..k - 1] && path[1..][k - 1..] == path[k..];
    } else {
      assert path[k..] == path;
    }
  }

  /** With non-empty keys, a path that leads on to another is spelled shorter. */
  lemma SpelledShorter(p: seq<string>, q: seq<string>)
    requires p <= q && p != q && "" !in q
    ensures |DottedFrom("", p)| < |DottedFrom("", q)|
  {
    assert q[..|p|] == p;
    DottedSplits("", q, |p|);
    assert q == p + q[|p|..];
    DottedLonger(DottedFrom("", p), q[|p|..]);
  }

  lemma AlikeApart(p: seq<string>, q: seq<string>)
    requires SpelledAlike(p, q) && p != q && "" !in p && "" !in q
    ensures Apart(p, q)
  {
    if p <= q {
      SpelledShorter(p, q);
    }
    if q <= p {
      SpelledShorter(q, p);
    }
  }

  /** Every leaf of every stack over these keys that merges is blamed on its last definer. */
  ghost predicate AlwaysRight(keys: iset<string>) {
    forall sources: seq<Source>, provenance: map<Dotted, string>, path: seq<string> ::
      Merges(keys, sources) && ProvenanceOf(sources, provenance) && LeafAt(MergeAll(sources).value, path).Some? ==>
        RightlyBlamed(sources, provenance, path)
  }

  ghost predicate Merges(keys: iset<string>, sources: seq<Source>) {
    Mappings(sources) && OverSources(keys, sources) && MergeAll(sources).Some?
  }

  lemma ConfusingOver(keys: iset<string>, p: seq<string>, q: seq<string>)
    requires OverPath(keys, p) && OverPath(keys, q) && p != [] && q != [] && Apart(p, q)
    ensures Merges(keys, Confusing(p, q))
  {
    ConfusingMerges(p, q);
    NestOver(keys, p[..|p| - 1], NOTHING);
    NestOver(keys, q, Leaf("old"));
    NestOver(keys, p, Leaf("new"));
  }

  /** Two paths over the keys that are spelled alike and apart make some blame wrong. */
  lemma ConfusionMisblames(keys: iset<string>, p: seq<string>, q: seq<string>)
    requires OverPath(keys, p) && OverPath(keys, q) && SpelledAlike(p, q) && Apart(p, q)
    ensures !AlwaysRight(keys)
  {
    var sources := Confusing(p, q);
    ConfusingOver(keys, p, q);
    var provenance := ProvenanceExists(sources);
    Misblamed(p, q, provenance);
  }

  /** For any set of non-empty keys: every leaf of every stack is blamed on its last definer if and
      only if no two different paths over the keys are spelled alike. */
  lemma NonEmptyKeysIff(keys: iset<string>)
    requires "" !in keys
    ensures AlwaysRight(keys) <==> Unambiguous(keys)
  {
    if Unambiguous(keys) {
      forall sources: seq<Source>, provenance: map<Dotted, string>, path: seq<string>
        | Merges(keys, sources) && ProvenanceOf(sources, provenance) && LeafAt(MergeAll(sources).value, path).Some?
        ensures RightlyBlamed(sources, provenance, path)
      {
        BlameIsRight(keys, sources, provenance, path);
      }
    } else {
      var p, q :| OverPath(keys, p) && OverPath(keys, q) && SpelledAlike(p, q) && p != q;
      AlikeApart(p, q);
      ConfusionMisblames(keys, p, q);
    }
  }

  /** The empty key together with any other one makes some blame wrong. */
  lemma EmptyKeyMisblames(keys: iset<string>, x: string)
    requires "" in keys && x in keys && x != ""
    ensures !AlwaysRight(keys)
  {
    var p, q := ["", x], [x];
    assert p[1..] == [x] && q[1..] == [];
    assert DottedFrom("", p) == DottedFrom("", [x]);
    assert p[0] != q[0];
    ConfusionMisblames(keys, p, q);
  }

  /** So does a key that contains a dot, together with the keys it seems to be made of. */
  lemma DottedKeyMisblames(keys: iset<string>, x: string, y: string)
    requires x != "" && y != "" && x in keys && y in keys && x + "." + y in keys
    ensures !AlwaysRight(keys)
  {
    var p, q := [x + "." + y], [x, y];
    assert p[1..] == [] && q[1..] == [y] && [y][1..] == [];
    assert DottedFrom("", q) == DottedFrom(x, [y]) == DottedFrom(x + "." + y, []);
    assert |p[0]| > |q[0]|;
    ConfusionMisblames(keys, p, q);
  }

  // ----- the empty key alone -----

  /** Every path over the empty key is spelled as nothing. */
  lemma {:induction false} SpelledEmpty(path: seq<string>)
    requires OverPath(iset{""}, path)
    ensures DottedFrom("", path) == ""
    decreases |path|
  {
    if path != [] {
      assert path[0] in iset{""};
      SpelledEmpty(path[1..]);
    }
  }

  /** Below a leaf of the target nothing is recorded. */
  lemma {:induction false} NothingBelowLeaf(t: Value, i: Value, path: seq<string>, q: seq<string>)
    requires t.Node? && i.Node? && LeafAt(t, path).Some? && path <= q && path != q
    ensures !Records(t, i, q)
    decreases |q|
  {
    if q[0] in i.entries && t.entries[q[0]].Node? && i.entries[q[0]].Node? {
      NothingBelowLeaf(t.entries[q[0]], i.entries[q[0]], path[1..], q[1..]);
    }
  }

  /** A source without the leaf records nothing once the leaf is there. */
  lemma LeafSilences(t: Value, i: Value, path: seq<string>)
    requires t.Node? && i.Node? && Compatible(t, i) && OverTree(iset{""}, i) && OverPath(iset{""}, path)
    requires LeafAt(t, path).Some? && LeafAt(i, path).None?
    ensures !Writes(t, i, "", "")
  {
    forall q ensures !Records(t, i, q) {
      if Records(t, i, q) {
        RecordedIsOver(iset{""}, t, i, q);
        forall k | 0 <= k < |q| ensures q[k] == "" {
          assert q[k] in iset{""};
        }
        forall k | 0 <= k < |path| ensures path[k] == "" {
          assert path[k] in iset{""};
        }
        if |q| <= |path| {
          assert q == path[..|q|];
          UntouchedLeaf(t, i, path, |q|);
        } else {
          assert path <= q;
          NothingBelowLeaf(t, i, path, q);
        }
      }
    }
  }

  lemma {:induction false} EmptyAuthor(sources: seq<Source>, path: seq<string>)
    requires Merges(iset{""}, sources) && OverPath(iset{""}, path) && LastDefining(sources, path).Some?
    ensures Author(sources, "") == LastDefining(sources, path)
    decreases |sources|
  {
    var n := |sources| - 1;
    var below, t, i := sources[..n], MergeAll(sources[..n]).value, sources[n].tree;
    if LeafAt(i, path).Some? {
      var k := RecordedPrefix(t, i, path);
      SpelledEmpty(path[..k]);
      assert Writes(t, i, "", "");
    } else {
      EmptyAuthor(below, path);
      LastWriterWins(below, path);
      LeafSilences(t, i, path);
    }
  }

  lemma {:induction false} EmptyBlame(provenance: map<Dotted, string>, path: seq<string>, k: nat)
    requires OverPath(iset{""}, path) && 1 <= k <= |path| && "" in provenance
    ensures Blame(provenance, path, k) == Some(provenance[""])
  {
    SpelledEmpty(path[..k]);
  }

  /** With the empty key as the only one, the blame is always right. */
  lemma EmptyKeyAlone()
    ensures AlwaysRight(iset{""})
  {
    forall sources: seq<Source>, provenance: map<Dotted, string>, path: seq<string>
      | Merges(iset{""}, sources) && ProvenanceOf(sources, provenance) && LeafAt(MergeAll(sources).value, path).Some?
      ensures RightlyBlamed(sources, provenance, path)
    {
      LastWriterWins(sources, path);
      var d := LastDefining(sources, path);
      LeafPathOver(iset{""}, sources[d.value].tree, path);
      EmptyAuthor(sources, path);
      EmptyBlame(provenance, path, |path|);
    }
  }

  /** For every set of keys: every leaf of every stack is blamed on its last definer if and only if
      the empty key is the only one, or it is not among them and no two different paths over the keys
      are spelled alike. */
  lemma AlwaysRightIff(keys: iset<string>)
    ensures AlwaysRight(keys) <==> keys == iset{""} || ("" !in keys && Unambiguous(keys))
  {
    if "" !in keys {
      NonEmptyKeysIff(keys);
    } else if x :| x in keys && x != "" {
      EmptyKeyMisblames(keys, x);
    } else {
      assert keys == iset{""};
      EmptyKeyAlone();
    }
  }
}
