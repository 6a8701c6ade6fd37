/** Merging layered settings with provenance. */
module SettingsMerge {
  import opened Wrappers

  /** A settings payload: a mapping, or a value the merge treats as atomic. */
  datatype Value = Leaf(text: string) | Node(entries: map<string, Value>)

  type Dotted = string

  // ----- one merge -----

  /** No key is a mapping on one side and an atomic value on the other. */
  predicate Compatible(t: Value, i: Value)
    requires t.Node? && i.Node?
    decreases i
  {
    forall k :: k in i.entries && k in t.entries ==>
                  t.entries[k].Node? == i.entries[k].Node? &&
                  (i.entries[k].Node? ==> Compatible(t.entries[k], i.entries[k]))
  }

  /** The incoming side wins, key by key, down to the leaves. */
  function Merge(t: Value, i: Value): (m: Value)
    requires t.Node? && i.Node?
    ensures m.Node?
    decreases i
  {
    Node(map k | k in t.entries.Keys + i.entries.Keys ::
           if k !in i.entries then t.entries[k]
           else if k in t.entries && t.entries[k].Node? && i.entries[k].Node? then Merge(t.entries[k], i.entries[k])
           else i.entries[k])
  }

  /** The paths at which a merge writes a provenance entry: where it stops descending. */
  predicate Records(t: Value, i: Value, path: seq<string>)
    requires t.Node? && i.Node?
    decreases |path|
  {
    path != [] && path[0] in i.entries &&
    if path[0] in t.entries && t.entries[path[0]].Node? && i.entries[path[0]].Node?
    then Records(t.entries[path[0]], i.entries[path[0]], path[1..])
    else |path| == 1
  }

  function FullPath(prefix: Dotted, key: string): Dotted { if prefix == "" then key else prefix + "." + key }

  function DottedFrom(prefix: Dotted, path: seq<string>): Dotted
    decreases |path|
  {
    if path == [] then prefix else DottedFrom(FullPath(prefix, path[0]), path[1..])
  }

  /** Some recorded path of the merge, spelled from `prefix`, is `s`. */
  ghost predicate Writes(t: Value, i: Value, prefix: Dotted, s: Dotted)
    requires t.Node? && i.Node?
  {
    exists path :: Records(t, i, path) && DottedFrom(prefix, path) == s
  }

  /** `after` is `before` with `source` at every string the merge writes. */
  ghost predicate Blamed(before: map<Dotted, string>, after: map<Dotted, string>, t: Value, i: Value,
                         prefix: Dotted, source: string)
    requires t.Node? && i.Node?
  {
    forall s :: (s in after <==> s in before || Writes(t, i, prefix, s)) &&
                (s in after ==> after[s] == if Writes(t, i, prefix, s) then source else before[s])
  }

  function Restrict(i: Value, keys: set<string>): (r: Value)
    requires i.Node?
    ensures r.Node?
  {
    Node(map k | k in i.entries && k in keys :: i.entries[k])
  }

  /** What the merge puts at one key. */
  function MergedAt(t: Value, i: Value, k: string): Value
    requires t.Node? && i.Node? && k in i.entries
  {
    if k in t.entries && t.entries[k].Node? && i.entries[k].Node? then Merge(t.entries[k], i.entries[k])
    else i.entries[k]
  }

  /** What one key of the incoming side writes into the provenance. */
  ghost predicate WritesAt(t: Value, i: Value, k: string, prefix: Dotted, s: Dotted)
    requires t.Node? && i.Node? && k in i.entries
  {
    if k in t.entries && t.entries[k].Node? && i.entries[k].Node?
    then Writes(t.entries[k], i.entries[k], FullPath(prefix, k), s)
    else s == FullPath(prefix, k)
  }

  lemma MergeOneMore(t: Value, i: Value, done: set<string>, k: string)
    requires t.Node? && i.Node? && k in i.entries && k !in done
    ensures Merge(t, Restrict(i, done + {k})) == Node(Merge(t, Restrict(i, done)).entries[k := MergedAt(t, i, k)])
  {
    var a, b := Merge(t, Restrict(i, done + {k})).entries, Merge(t, Restrict(i, done)).entries[k := MergedAt(t, i, k)];
    assert a.Keys == b.Keys;
    forall j | j in a ensures a[j] == b[j] {
      if j != k && j in i.entries && j in done {
        assert Restrict(i, done + {k}).entries[j] == Restrict(i, done).entries[j];
      }
    }
  }

  lemma WritesOneMore(t: Value, i: Value, done: set<string>, k: string, prefix: Dotted, s: Dotted)
    requires t.Node? && i.Node? && k in i.entries && k !in done
    ensures Writes(t, Restrict(i, done + {k}), prefix, s) <==>
            Writes(t, Restrict(i, done), prefix, s) || WritesAt(t, i, k, prefix, s)
  {
    var more, less := Restrict(i, done + {k}), Restrict(i, done);
    if Writes(t, more, prefix, s) {
      var path :| Records(t, more, path) && DottedFrom(prefix, path) == s;
      if path[0] == k {
        assert path == [k] + path[1..];
        assert DottedFrom(prefix, path) == DottedFrom(FullPath(prefix, k), path[1..]);
        assert WritesAt(t, i, k, prefix, s);
      } else {
        assert Writes(t, less, prefix, s);
      }
    }
    if Writes(t, less, prefix, s) {
      var path :| Records(t, less, path) && DottedFrom(prefix, path) == s;
    }
    if WritesAt(t, i, k, prefix, s) {
      WritesThrough(t, i, k, prefix, s);
      var path :| path != [] && path[0] == k && Records(t, i, path) && DottedFrom(prefix, path) == s;
    }
  }

  lemma WritesThrough(t: Value, i: Value, k: string, prefix: Dotted, s: Dotted)
    requires t.Node? && i.Node? && k in i.entries && WritesAt(t, i, k, prefix, s)
    ensures exists path :: path != [] && path[0] == k && Records(t, i, path) && DottedFrom(prefix, path) == s
  {
    if k in t.entries && t.entries[k].Node? && i.entries[k].Node? {
      var q :| Records(t.entries[k], i.entries[k], q) && DottedFrom(FullPath(prefix, k), q) == s;
      var path := [k] + q;
      assert path[1..] == q;
      assert Records(t, i, path) && DottedFrom(prefix, path) == s;
    } else {
      var path := [k];
      assert path[1..] == [];
      assert DottedFrom(FullPath(prefix, k), []) == s;
      assert Records(t, i, path) && DottedFrom(prefix, path) == s;
    }
  }

  datatype MergeError = IncompatibleAt(path: Dotted)

  datatype Merged = Merged(value: Value, provenance: map<Dotted, string>)

  ghost predicate MergeOk(before: map<Dotted, string>, t: Value, i: Value, prefix: Dotted, source: string, m: Merged)
    requires t.Node? && i.Node?
  {
    m.value == Merge(t, i) && Blamed(before, m.provenance, t, i, prefix, source)
  }

  lemma BlamedOneMore(before: map<Dotted, string>, mid: map<Dotted, string>, after: map<Dotted, string>,
                      t: Value, i: Value, done: set<string>, k: string, prefix: Dotted, source: string)
    requires t.Node? && i.Node? && k in i.entries && k !in done
    requires Blamed(before, mid, t, Restrict(i, done), prefix, source)
    requires forall s :: (s in after <==> s in mid || WritesAt(t, i, k, prefix, s)) &&
                         (s in after ==> after[s] == if WritesAt(t, i, k, prefix, s) then source else mid[s])
    ensures Blamed(before, after, t, Restrict(i, done + {k}), prefix, source)
  {
    forall s ensures Writes(t, Restrict(i, done + {k}), prefix, s) <==>
                     Writes(t, Restrict(i, done), prefix, s) || WritesAt(t, i, k, prefix, s)
    {
      WritesOneMore(t, i, done, k, prefix, s);
    }
  }

  /** At `path` one side has a mapping and the other an atomic value. */
  predicate ClashAt(t: Value, i: Value, path: seq<string>)
    requires t.Node? && i.Node?
    decreases |path|
  {
    path != [] && path[0] in t.entries && path[0] in i.entries &&
    var a, b := t.entries[path[0]], i.entries[path[0]];
    if |path| == 1 then a.Node? != b.Node? else a.Node? && b.Node? && ClashAt(a, b, path[1..])
  }

  /** Mappings that can be merged clash nowhere; mappings that cannot, somewhere. */
  lemma {:induction false} NoClash(t: Value, i: Value, path: seq<string>)
    requires t.Node? && i.Node? && Compatible(t, i)
    ensures !ClashAt(t, i, path)
    decreases |path|
  {
    if |path| > 1 && path[0] in t.entries && path[0] in i.entries && i.entries[path[0]].Node? {
      NoClash(t.entries[path[0]], i.entries[path[0]], path[1..]);
    }
  }

  lemma {:induction false} SomeClash(t: Value, i: Value) returns (path: seq<string>)
    requires t.Node? && i.Node? && !Compatible(t, i)
    ensures ClashAt(t, i, path)
    decreases i
  {
    var k :| k in i.entries && k in t.entries &&
        (t.entries[k].Node? != i.entries[k].Node? ||
         (i.entries[k].Node? && t.entries[k].Node? && !Compatible(t.entries[k], i.entries[k])));
    if t.entries[k].Node? != i.entries[k].Node? {
      path := [k];
    } else {
      var rest := SomeClash(t.entries[k], i.entries[k]);
      path := [k] + rest;
      assert path[1..] == rest;
    }
  }

  /** `s` spells a path, below `prefix`, at which the two sides clash. */
  ghost predicate NamesClash(t: Value, i: Value, prefix: Dotted, s: Dotted)
    requires t.Node? && i.Node?
  {
    exists path :: ClashAt(t, i, path) && DottedFrom(prefix, path) == s
  }

  lemma ClashHere(t: Value, i: Value, k: string, prefix: Dotted)
    requires t.Node? && i.Node? && k in t.entries && k in i.entries && t.entries[k].Node? != i.entries[k].Node?
    ensures NamesClash(t, i, prefix, FullPath(prefix, k))
  {
    var path := [k];
    assert path[1..] == [];
    assert DottedFrom(FullPath(prefix, k), []) == FullPath(prefix, k);
    assert ClashAt(t, i, path) && DottedFrom(prefix, path) == FullPath(prefix, k);
  }

  lemma ClashBelow(t: Value, i: Value, k: string, prefix: Dotted, s: Dotted)
    requires t.Node? && i.Node? && k in t.entries && k in i.entries && t.entries[k].Node? && i.entries[k].Node?
    requires NamesClash(t.entries[k], i.entries[k], FullPath(prefix, k), s)
    ensures NamesClash(t, i, prefix, s)
  {
    var q :| ClashAt(t.entries[k], i.entries[k], q) && DottedFrom(FullPath(prefix, k), q) == s;
    var path := [k] + q;
    assert path[1..] == q;
    assert ClashAt(t, i, path) && DottedFrom(prefix, path) == s;
  }

  /** `_deep_merge`: the loop over the incoming items, descending where both sides are mappings. */
  method DeepMerge(t: Value, i: Value, source: string, provenance: map<Dotted, string>, prefix: Dotted)
    returns (r: Result<Merged, MergeError>)
    requires t.Node? && i.Node?
    ensures r.Ok? <==> Compatible(t, i)
    ensures r.Ok? ==> MergeOk(provenance, t, i, prefix, source, r.value)
    ensures r.Err? ==> NamesClash(t, i, prefix, r.error.path)
    decreases i
  {
    var target, blame := t.entries, provenance;
    var rest := i.entries.Keys;
    ghost var done: set<string> := {};
    while rest != {}
      invariant rest <= i.entries.Keys && done == i.entries.Keys - rest
      invariant Node(target) == Merge(t, Restrict(i, done))
      invariant Blamed(provenance, blame, t, Restrict(i, done), prefix, source)
      invariant forall k :: k in done && k in t.entries ==>
                              t.entries[k].Node? == i.entries[k].Node? &&
                              (i.entries[k].Node? ==> Compatible(t.entries[k], i.entries[k]))
    {
      var k :| k in rest;
      var value, full := i.entries[k], FullPath(prefix, k);
      assert k in target <==> k in t.entries;
      assert k in target ==> target[k] == t.entries[k];
      ghost var mid := blame;
      if k in target && target[k].Node? && value.Node? {
        var sub := DeepMerge(target[k], value, source, blame, full);
        if sub.Err? {
          ClashBelow(t, i, k, prefix, sub.error.path);
          return Err(sub.error);
        }
        target := target[k := sub.value.value];
        blame := sub.value.provenance;
      } else if k in target && target[k].Node? != value.Node? {
        ClashHere(t, i, k, prefix);
        return Err(IncompatibleAt(full));
      } else {
        target := target[k := value];
        blame := blame[full := source];
      }
      MergeOneMore(t, i, done, k);
      BlamedOneMore(provenance, mid, blame, t, i, done, k, prefix, source);
      done := done + {k};
      rest := rest - {k};
    }
    assert Restrict(i, done) == i;
    r := Ok(Merged(Node(target), blame));
  }
}
