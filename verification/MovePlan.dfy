/** The persist stage's file moves and the paths its record lists. */
module MovePlan {
  import opened Wrappers
  import opened Seqs
  import opened PurePaths
  import Splitting
  import Text

  datatype Move = Move(source: string, target: string)

  datatype ProcessorResult = ProcessorResult(finalPath: string, kind: string, forcePaths: seq<string>)

  predicate Blank(s: string) { Text.Strip(s) == "" }

  /** The checks and the trimming a processor result undergoes when it is built; `None` is an
      `InvalidProcessorError`. */
  function Checked(finalPath: string, kind: string, forcePaths: seq<string>): Option<ProcessorResult> {
    if Blank(finalPath) || Blank(kind) || exists i :: 0 <= i < |forcePaths| && Blank(forcePaths[i]) then None
    else Some(ProcessorResult(finalPath, kind, Map(forcePaths, Text.Strip)))
  }

  /** `PurePath(s).name`. */
  function Name(s: string): string {
    var parts := Parts(s);
    if parts == [] then "" else parts[|parts| - 1]
  }

  /** `str(PurePath(target).parent / PurePath(source).name)`. */
  function Sibling(target: string, source: string): string {
    var parts := Parts(target);
    Render(RootOf(target),
           (if parts == [] then [] else parts[..|parts| - 1]) + (if Name(source) == "" then [] else [Name(source)]))
  }

  /** `str(PurePath(target).parent / PurePath(source).name).replace("\\", "/")`. */
  function Place(target: string, source: string): string { Slashes(Sibling(target, source)) }

  function Offer(target: string, source: string): (m: Move)
    ensures m.source == Norm(source) && m.target == Place(target, source)
  {
    SiblingProper(target, source);
    Move(Norm(source), Norm(Sibling(target, source)))
  }

  /** The move a force path asks for, and the place its record lists. */
  function OfferFrom(target: string): string -> Move { s => Offer(target, s) }

  function SiblingFrom(target: string): string -> string { s => Place(target, s) }

  function Offers(target: string, sources: seq<string>): seq<Move> { Map(sources, OfferFrom(target)) }

  function Sources(ms: seq<Move>): seq<string> { Map(ms, (m: Move) => m.source) }

  function Targets(ms: seq<Move>): seq<string> { Map(ms, (m: Move) => m.target) }

  /** Offered moves are taken in order unless their source or target is taken already. */
  function Taken(first: Move, offers: seq<Move>): (ms: seq<Move>)
    ensures |ms| >= 1 && ms[0] == first
  {
    if offers == [] then [first] else Take(Taken(first, offers[..|offers| - 1]), offers[|offers| - 1])
  }

  function Take(ms: seq<Move>, m: Move): seq<Move> {
    if m.source in Sources(ms) || m.target in Targets(ms) then ms else ms + [m]
  }

  /** First mentions, leaving out `first`. */
  function Listed(first: string, targets: seq<string>): seq<string> {
    if targets == [] then []
    else List(first, Listed(first, targets[..|targets| - 1]), targets[|targets| - 1])
  }

  function List(first: string, listed: seq<string>, t: string): seq<string> {
    if t == first || t in listed then listed else listed + [t]
  }

  /** The moves of a run whose processor produced `result`. */
  function Plan(source: string, target: string, result: Option<ProcessorResult>): seq<Move> {
    if result.None? then [Move(source, target)]
    else Taken(Move(Norm(result.value.finalPath), Norm(target)), Offers(target, result.value.forcePaths))
  }

  function SiblingsOf(target: string, sources: seq<string>): seq<string> {
    Map(sources, SiblingFrom(target))
  }

  /** The result the record keeps; `None` when it is refused. */
  function Recorded(target: string, result: Option<ProcessorResult>): Option<Option<ProcessorResult>> {
    if result.None? then Some(None)
    else RecordedAt(target, result.value.kind, SiblingsOf(target, result.value.forcePaths))
  }

  function RecordedAt(target: string, kind: string, places: seq<string>): Option<Option<ProcessorResult>> {
    var r := Checked(target, kind, Listed(target, places));
    if r.None? then None else Some(Some(r.value))
  }

  // ----- the loops -----

  ghost predicate Remembers(seen: set<string>, s: seq<string>) { forall x :: x in seen <==> x in s }

  /** The loop over the force paths; `offer` gives the move each asks for. */
  method AddMoves(first: Move, sources: seq<string>, offer: string -> Move) returns (moves: seq<Move>)
    ensures moves == Taken(first, Map(sources, offer))
  {
    ghost var offers := Map(sources, offer);
    moves := [first];
    var seenSources, seenTargets := {first.source}, {first.target};
    for i := 0 to |sources|
      invariant moves == Taken(first, offers[..i])
      invariant Remembers(seenSources, Sources(moves)) && Remembers(seenTargets, Targets(moves))
    {
      var m := offer(sources[i]);
      assert offers[..i + 1][..i] == offers[..i];
      if m.source !in seenSources && m.target !in seenTargets {
        assert Sources(moves + [m]) == Sources(moves) + [m.source];
        assert Targets(moves + [m]) == Targets(moves) + [m.target];
        seenSources, seenTargets := seenSources + {m.source}, seenTargets + {m.target};
        moves := moves + [m];
      }
    }
    assert offers[..|sources|] == offers;
  }

  method BuildMovePlan(source: string, target: string, result: Option<ProcessorResult>) returns (moves: seq<Move>)
    ensures moves == Plan(source, target, result) && PlanFor(source, target, result, moves)
  {
    PlanIsFor(source, target, result);
    if result.None? {
      return [Move(source, target)];
    }
    moves := AddMoves(Move(Norm(result.value.finalPath), Norm(target)), result.value.forcePaths, OfferFrom(target));
  }

  method RecordPlaces(target: string, kind: string, sources: seq<string>, place: string -> string)
    returns (recorded: Option<Option<ProcessorResult>>)
    ensures recorded == RecordedAt(target, kind, Map(sources, place))
  {
    ghost var targets := Map(sources, place);
    var seen, listed: seq<string> := {target}, [];
    for i := 0 to |sources|
      invariant listed == Listed(target, targets[..i])
      invariant Remembers(seen, [target] + listed)
    {
      var t := place(sources[i]);
      assert targets[..i + 1][..i] == targets[..i];
      if t !in seen {
        seen, listed := seen + {t}, listed + [t];
      }
    }
    assert targets[..|sources|] == targets;
    var r := Checked(target, kind, listed);
    return if r.None? then None else Some(Some(r.value));
  }

  method BuildPersistedResult(target: string, result: Option<ProcessorResult>)
    returns (recorded: Option<Option<ProcessorResult>>)
    ensures recorded == Recorded(target, result) && RecordFor(target, result, recorded)
  {
    RecordIsFor(target, result);
    if result.None? {
      return Some(None);
    }
    recorded := RecordPlaces(target, result.value.kind, result.value.forcePaths, SiblingFrom(target));
  }

  // ----- distinctness -----

  lemma {:induction false} TakenDistinct(first: Move, offers: seq<Move>)
    ensures NoDup(Sources(Taken(first, offers))) && NoDup(Targets(Taken(first, offers)))
    decreases |offers|
  {
    if offers != [] {
      var ms, m := Taken(first, offers[..|offers| - 1]), offers[|offers| - 1];
      TakenDistinct(first, offers[..|offers| - 1]);
      if m.source !in Sources(ms) && m.target !in Targets(ms) {
        assert Sources(ms + [m]) == Sources(ms) + [m.source];
        assert Targets(ms + [m]) == Targets(ms) + [m.target];
      }
    }
  }

  /** No file is moved twice and no two files are moved to the same place. */
  lemma PlanDistinct(source: string, target: string, result: Option<ProcessorResult>)
    ensures NoDup(Sources(Plan(source, target, result))) && NoDup(Targets(Plan(source, target, result)))
  {
    if result.Some? {
      TakenDistinct(Move(Norm(result.value.finalPath), Norm(target)), Offers(target, result.value.forcePaths));
    }
  }

  // ----- what is listed against what is moved -----

  /** Offers of the same source with targets of their own have the same target. */
  ghost predicate Determined(first: Move, offers: seq<Move>) {
    forall a, b :: a in offers && b in offers && SameSource(first, a, b) ==> a.target == b.target
  }

  predicate SameSource(first: Move, a: Move, b: Move) {
    a.source == b.source && a.target != first.target && b.target != first.target
  }

  /** The moves after the first. */
  function Secondary(first: Move, offers: seq<Move>): seq<Move> { Taken(first, offers)[1..] }

  lemma {:induction false} SecondaryOffered(first: Move, offers: seq<Move>, m: Move)
    requires m in Secondary(first, offers)
    ensures m in offers && m.source != first.source && m.target != first.target
    decreases |offers|
  {
    if offers != [] {
      var init := offers[..|offers| - 1];
      if m in Secondary(first, init) {
        SecondaryOffered(first, init, m);
      } else {
        var ms := Taken(first, init);
        assert Sources(ms)[0] == first.source && Targets(ms)[0] == first.target;
      }
    }
  }

  /** A last offer with a new target, not from the first source, has a new source too. */
  lemma TakenSource(first: Move, offers: seq<Move>)
    requires offers != [] && Determined(first, offers) && offers[|offers| - 1].source != first.source
    requires offers[|offers| - 1].target !in Targets(Taken(first, offers[..|offers| - 1]))
    ensures offers[|offers| - 1].source !in Sources(Taken(first, offers[..|offers| - 1]))
  {
    var n := |offers| - 1;
    var init, m := offers[..n], offers[n];
    var ms := Taken(first, init);
    forall i | 0 <= i < |ms| ensures Sources(ms)[i] != m.source {
      assert Targets(ms)[i] == ms[i].target;
      if i > 0 {
        assert ms[i] == Secondary(first, init)[i - 1];
        SecondaryOffered(first, init, ms[i]);
        assert ms[i] in offers && m in offers && m.target != first.target by {
          assert Targets(ms)[0] == first.target;
        }
        assert SameSource(first, ms[i], m) <==> ms[i].source == m.source;
      }
    }
  }

  /** The moves after the first, before and after the last offer. */
  lemma SecondaryGrows(first: Move, offers: seq<Move>)
    requires offers != []
    ensures var ms, m := Taken(first, offers[..|offers| - 1]), offers[|offers| - 1];
            Targets(Secondary(first, offers)) ==
            Targets(ms[1..]) + (if m.source in Sources(ms) || m.target in Targets(ms) then [] else [m.target])
  {
  }

  lemma LastCovered(first: Move, offers: seq<Move>)
    requires offers != [] && Determined(first, offers)
    requires offers[|offers| - 1].source != first.source && offers[|offers| - 1].target != first.target
    ensures offers[|offers| - 1].target in Targets(Secondary(first, offers))
  {
    var ms, m := Taken(first, offers[..|offers| - 1]), offers[|offers| - 1];
    SecondaryGrows(first, offers);
    if m.target !in Targets(ms) {
      TakenSource(first, offers);
    }
  }

  /** An offer from elsewhere than the first source gets its target among the moves. */
  lemma {:induction false} OfferCovered(first: Move, offers: seq<Move>, k: nat)
    requires Determined(first, offers) && k < |offers|
    requires offers[k].source != first.source && offers[k].target != first.target
    ensures offers[k].target in Targets(Secondary(first, offers))
    decreases |offers|
  {
    if k == |offers| - 1 {
      LastCovered(first, offers);
    } else {
      OfferCovered(first, offers[..|offers| - 1], k);
      SecondaryGrows(first, offers);
    }
  }

  lemma {:induction false} ListedIff(first: string, targets: seq<string>, t: string)
    ensures t in Listed(first, targets) <==> t in targets && t != first
    decreases |targets|
  {
    if targets != [] {
      var n := |targets| - 1;
      ListedIff(first, targets[..n], t);
      assert targets == targets[..n] + [targets[n]];
      ListedIff(first, targets[..n], targets[n]);
    }
  }

  /** An offer of the first source under a target of its own. */
  ghost predicate Strays(first: Move, offers: seq<Move>, t: string) {
    t != first.target && Move(first.source, t) in offers
  }

  ghost predicate NeverStrays(first: Move, offers: seq<Move>) { forall t :: !Strays(first, offers, t) }

  ghost predicate Elsewhere(first: Move, offers: seq<Move>, t: string) {
    exists k :: 0 <= k < |offers| && offers[k].target == t && offers[k].source != first.source
  }

  lemma MovedIff(first: Move, offers: seq<Move>, t: string)
    requires Determined(first, offers)
    ensures t in Targets(Secondary(first, offers)) <==> t != first.target && Elsewhere(first, offers, t)
  {
    var ms := Secondary(first, offers);
    if t in Targets(ms) {
      var i :| 0 <= i < |ms| && Targets(ms)[i] == t;
      SecondaryOffered(first, offers, ms[i]);
    }
    if t != first.target && Elsewhere(first, offers, t) {
      var k :| 0 <= k < |offers| && offers[k].target == t && offers[k].source != first.source;
      OfferCovered(first, offers, k);
    }
  }

  /** The record lists exactly the secondary targets if and only if every target the first
      source strays to is also the target of another source. */
  lemma ListedMovedIff(first: Move, offers: seq<Move>)
    requires Determined(first, offers)
    ensures (forall t :: t in Listed(first.target, Targets(offers)) <==> t in Targets(Secondary(first, offers))) <==>
            (forall t :: Strays(first, offers, t) ==> Elsewhere(first, offers, t))
  {
    var listed, moved := Listed(first.target, Targets(offers)), Targets(Secondary(first, offers));
    forall t ensures t in moved ==> t in listed
      ensures t in listed ==> t in moved || Strays(first, offers, t)
      ensures Strays(first, offers, t) ==> t in listed && (t in moved <==> Elsewhere(first, offers, t))
    {
      ListedIff(first.target, Targets(offers), t);
      MovedIff(first, offers, t);
      if t in Targets(offers) {
        var i :| 0 <= i < |offers| && Targets(offers)[i] == t;
        assert offers[i] == Move(offers[i].source, t);
      }
      if Strays(first, offers, t) {
        var i :| 0 <= i < |offers| && offers[i] == Move(first.source, t);
        assert Targets(offers)[i] == t;
      }
      if Elsewhere(first, offers, t) {
        var k :| 0 <= k < |offers| && offers[k].target == t && offers[k].source != first.source;
        assert Targets(offers)[k] == t;
      }
    }
  }

  lemma DeterminedBefore(first: Move, offers: seq<Move>)
    requires offers != [] && Determined(first, offers)
    ensures Determined(first, offers[..|offers| - 1])
  {
  }

  /** If the first source never strays, the record lists the secondary targets in order. */
  lemma {:induction false} ListedInOrder(first: Move, offers: seq<Move>)
    requires Determined(first, offers) && NeverStrays(first, offers)
    ensures Listed(first.target, Targets(offers)) == Targets(Secondary(first, offers))
    decreases |offers|
  {
    if offers != [] {
      var n := |offers| - 1;
      var init, m := offers[..n], offers[n];
      DeterminedBefore(first, offers);
      NeverStraysBefore(first, offers);
      ListedInOrder(first, init);
      assert Targets(offers)[..n] == Targets(init);
      LastSourceFree(first, offers);
      ListStep(first, Taken(first, init), m);
    }
  }

  /** A move taken whenever its target is new is listed exactly when it is taken. */
  lemma ListStep(first: Move, ms: seq<Move>, m: Move)
    requires ms != [] && ms[0] == first && (m.target !in Targets(ms) ==> m.source !in Sources(ms))
    ensures List(first.target, Targets(ms[1..]), m.target) == Targets(Take(ms, m)[1..])
  {
    assert Targets(ms) == [first.target] + Targets(ms[1..]);
    if m.target !in Targets(ms) {
      assert (ms + [m])[1..] == ms[1..] + [m];
    } else if m.source !in Sources(ms) {
      assert Take(ms, m) == ms;
    }
  }

  lemma LastSourceFree(first: Move, offers: seq<Move>)
    requires offers != [] && Determined(first, offers) && NeverStrays(first, offers)
    ensures var ms, m := Taken(first, offers[..|offers| - 1]), offers[|offers| - 1];
            m.target !in Targets(ms) ==> m.source !in Sources(ms)
  {
    var ms, m := Taken(first, offers[..|offers| - 1]), offers[|offers| - 1];
    if m.target !in Targets(ms) {
      assert Targets(ms)[0] == first.target;
      LastNotFirst(first, offers);
      TakenSource(first, offers);
    }
  }

  lemma NeverStraysBefore(first: Move, offers: seq<Move>)
    requires offers != [] && NeverStrays(first, offers)
    ensures NeverStrays(first, offers[..|offers| - 1])
  {
    var init := offers[..|offers| - 1];
    forall t ensures !Strays(first, init, t) {
      assert !Strays(first, offers, t);
    }
  }

  lemma LastNotFirst(first: Move, offers: seq<Move>)
    requires offers != [] && offers[|offers| - 1].target != first.target
    requires NeverStrays(first, offers)
    ensures offers[|offers| - 1].source != first.source
  {
    var m := offers[|offers| - 1];
    assert !Strays(first, offers, m.target) && m == Move(m.source, m.target);
  }

  /** The offers that are not of the first source. */
  function Others(first: Move, offers: seq<Move>): seq<Move> { Filter(offers, (m: Move) => m.source != first.source) }

  /** Offers of the first source are never taken. */
  lemma {:induction false} FirstSourceSkipped(first: Move, offers: seq<Move>)
    ensures Taken(first, offers) == Taken(first, Others(first, offers))
    decreases |offers|
  {
    if offers != [] {
      var init, m := offers[..|offers| - 1], offers[|offers| - 1];
      FirstSourceSkipped(first, init);
      if m.source == first.source {
        assert Sources(Taken(first, init))[0] == m.source;
      } else {
        var o := Others(first, init);
        assert Others(first, offers) == o + [m] && (o + [m])[..|o|] == o;
      }
    }
  }

  /** What is moved are the first mentions among the offers that are not of the first source. */
  lemma MovedAreOthers(first: Move, offers: seq<Move>)
    requires Determined(first, offers)
    ensures Targets(Secondary(first, offers)) == Listed(first.target, Targets(Others(first, offers)))
  {
    var others := Others(first, offers);
    FirstSourceSkipped(first, offers);
    assert NeverStrays(first, others) by {
      forall t ensures !Strays(first, others, t) {
      }
    }
    assert Determined(first, others);
    ListedInOrder(first, others);
  }

  /** A target is listed but not moved to if and only if every offer of it comes from a source that
      was moved elsewhere. */
  lemma ListedUnmovedIff(first: Move, offers: seq<Move>, t: string)
    ensures t in Listed(first.target, Targets(offers)) && t !in Targets(Secondary(first, offers)) <==>
            t in Targets(offers) && t != first.target && AllElsewhere(first, offers, t)
  {
    ListedIff(first.target, Targets(offers), t);
    if t in Targets(Secondary(first, offers)) {
      MovedStays(first, offers, t);
    } else if t in Targets(offers) && t != first.target {
      UnmovedElsewhere(first, offers, t);
    }
  }

  lemma UnmovedElsewhere(first: Move, offers: seq<Move>, t: string)
    requires t != first.target && t !in Targets(Secondary(first, offers))
    ensures AllElsewhere(first, offers, t)
  {
    var ms := Taken(first, offers);
    forall m | m in offers && m.target == t ensures MovedElsewhere(ms, m) {
      Blocked(first, offers, m);
      var i :| 0 <= i < |ms| && Sources(ms)[i] == m.source;
      assert Targets(ms)[i] == ms[i].target && ms[i] in ms;
    }
  }

  /** The offer that moved to `t` has no other move. */
  lemma MovedStays(first: Move, offers: seq<Move>, t: string)
    requires t in Targets(Secondary(first, offers))
    ensures !AllElsewhere(first, offers, t)
  {
    var ms, rest := Taken(first, offers), Secondary(first, offers);
    var j :| 0 <= j < |rest| && Targets(rest)[j] == t;
    var i := j + 1;
    assert ms[i] == rest[j] && ms[i].target == t;
    SecondaryOffered(first, offers, ms[i]);
    TakenDistinct(first, offers);
    forall k | 0 <= k < |ms| && ms[k].source == ms[i].source ensures k == i {
      assert Sources(ms)[k] == Sources(ms)[i];
    }
    assert !MovedElsewhere(ms, ms[i]);
  }

  ghost predicate MovedElsewhere(ms: seq<Move>, m: Move) {
    exists n :: n in ms && n.source == m.source && n.target != m.target
  }

  ghost predicate AllElsewhere(first: Move, offers: seq<Move>, t: string) {
    forall m :: m in offers && m.target == t ==> MovedElsewhere(Taken(first, offers), m)
  }

  /** An offer is taken, or its source or its target is. */
  lemma {:induction false} Blocked(first: Move, offers: seq<Move>, m: Move)
    requires m in offers
    ensures var ms := Taken(first, offers); m in ms || m.source in Sources(ms) || m.target in Targets(ms)
    decreases |offers|
  {
    var init, last := offers[..|offers| - 1], offers[|offers| - 1];
    var ms, all := Taken(first, init), Taken(first, offers);
    assert ms <= all;
    assert Sources(ms) <= Sources(all) && Targets(ms) <= Targets(all);
    if m != last {
      Blocked(first, init, m);
    }
  }

  // ----- when the very files that are listed are moved -----

  /** The offers that mention a target first, leaving out `first`. */
  function Mentions(first: string, offers: seq<Move>): seq<Move> {
    if offers == [] then []
    else
      var ms, m := Mentions(first, offers[..|offers| - 1]), offers[|offers| - 1];
      if m.target == first || m.target in Targets(ms) then ms else ms + [m]
  }

  lemma {:induction false} MentionsListed(first: string, offers: seq<Move>)
    ensures Targets(Mentions(first, offers)) == Listed(first, Targets(offers))
    decreases |offers|
  {
    if offers != [] {
      var n := |offers| - 1;
      var ms := Mentions(first, offers[..n]);
      MentionsListed(first, offers[..n]);
      assert Targets(offers)[..n] == Targets(offers[..n]);
      assert Targets(ms + [offers[n]]) == Targets(ms) + [offers[n].target];
    }
  }

  /** Every listed place receives the very file that was listed there if and only if the first
      mentions come from different sources, none of them the first; for all inputs. */
  lemma {:induction false} MentionsMovedIff(first: Move, offers: seq<Move>)
    ensures Taken(first, offers) == [first] + Mentions(first.target, offers) <==>
            NoDup(Sources([first] + Mentions(first.target, offers)))
    decreases |offers|
  {
    TakenDistinct(first, offers);
    if NoDup(Sources([first] + Mentions(first.target, offers))) {
      MentionsTaken(first, offers);
    }
  }

  lemma {:induction false} MentionsTaken(first: Move, offers: seq<Move>)
    requires NoDup(Sources([first] + Mentions(first.target, offers)))
    ensures Taken(first, offers) == [first] + Mentions(first.target, offers)
    decreases |offers|
  {
    if offers != [] {
      var init, m := offers[..|offers| - 1], offers[|offers| - 1];
      var ms := Mentions(first.target, init);
      HeadTargets(first, ms);
      if m.target == first.target || m.target in Targets(ms) {
        MentionsTaken(first, init);
      } else {
        assert [first] + Mentions(first.target, offers) == ([first] + ms) + [m];
        LastDistinct([first] + ms, m);
        MentionsTaken(first, init);
      }
    }
  }

  lemma HeadTargets(first: Move, ms: seq<Move>)
    ensures Targets([first] + ms) == [first.target] + Targets(ms)
  {
  }

  lemma LastDistinct(all: seq<Move>, m: Move)
    requires NoDup(Sources(all + [m]))
    ensures NoDup(Sources(all)) && m.source !in Sources(all)
  {
    assert Sources(all + [m]) == Sources(all) + [m.source];
    var s := Sources(all) + [m.source];
    assert forall i :: 0 <= i < |all| ==> s[i] == Sources(all)[i];
    assert s[|all|] == m.source;
  }

  // ----- small lists of offers -----

  lemma TakenTwin(first: Move, m: Move)
    requires first.source == m.source
    ensures Taken(first, [m]) == [first] &&
            (m.target != first.target ==> Listed(first.target, Targets([m])) == [m.target])
  {
  }

  /** Two offers of one source, neither of them the first: only the first of them is taken, both
      are listed. */
  lemma TakenPair(first: Move, a: Move, b: Move)
    requires SameSource(first, a, b) && a.target != b.target && a.source != first.source
    ensures Taken(first, [a, b]) == [first, a] && Listed(first.target, Targets([a, b])) == [a.target, b.target]
  {
    assert [a, b][..1] == [a] && [a][..0] == [] && Taken(first, []) == [first];
    assert Sources([first]) == [first.source] && Targets([first]) == [first.target];
    assert Taken(first, [a]) == [first, a];
    assert Sources([first, a])[1] == b.source;
    var ts := [a.target, b.target];
    assert Targets([a, b]) == ts && ts[..1] == [a.target] && ts[..1][..0] == [];
    assert Listed(first.target, []) == [] && Listed(first.target, [a.target]) == [a.target];
  }

  // ----- the paths of a processor result -----

  lemma SiblingProper(target: string, source: string)
    ensures Norm(Sibling(target, source)) == Slashes(Sibling(target, source))
  {
    PartsProper(target);
    PartsProper(source);
    var parts := Parts(target);
    var up := if parts == [] then [] else parts[..|parts| - 1];
    var whole := up + (if Name(source) == "" then [] else [Name(source)]);
    assert Proper(whole);
    RenderParses(RootOf(target), whole);
  }

  /** A secondary file's place: in the target's directory, under the file's own name. */
  lemma SiblingBeside(target: string, source: string)
    requires Parts(target) != [] && Parts(source) != []
    ensures RootOf(Sibling(target, source)) == RootOf(target) &&
            Parts(Sibling(target, source)) == Beside(Parts(target), Parts(source)) &&
            Place(target, source) == Slashes(Sibling(target, source))
  {
    PartsProper(target);
    PartsProper(source);
    ProperBeside(Parts(target), Parts(source));
    RenderParses(RootOf(target), Beside(Parts(target), Parts(source)));
  }

  function Beside(t: seq<string>, f: seq<string>): seq<string>
    requires t != [] && f != []
  {
    t[..|t| - 1] + [f[|f| - 1]]
  }

  lemma ProperBeside(t: seq<string>, f: seq<string>)
    requires Proper(t) && Proper(f) && t != [] && f != []
    ensures Proper(Beside(t, f)) && f[|f| - 1] != ""
  {
    var w := Beside(t, f);
    forall i | 0 <= i < |w| ensures Splitting.Free(w[i], SLASH) && Kept(w[i]) {
      assert w[i] == if i < |t| - 1 then t[i] else f[|f| - 1];
    }
    assert Kept(f[|f| - 1]);
  }

  ghost predicate SomePlaceBlank(target: string, paths: seq<string>) {
    exists i :: 0 <= i < |paths| && Place(target, paths[i]) != target && Blank(Place(target, paths[i]))
  }

  /** The record is refused exactly when the target, the kind or a place of its own is blank; otherwise
      it is about the target and keeps the kind. */
  ghost predicate RecordFor(target: string, result: Option<ProcessorResult>,
                            recorded: Option<Option<ProcessorResult>>)
  {
    match result
    case None => recorded == Some(None)
    case Some(r) =>
      (recorded.None? <==> Blank(target) || Blank(r.kind) || SomePlaceBlank(target, r.forcePaths)) &&
      (recorded.Some? ==>
         recorded.value.Some? && recorded.value.value.finalPath == target && recorded.value.value.kind == r.kind)
  }

  lemma RecordIsFor(target: string, result: Option<ProcessorResult>)
    ensures RecordFor(target, result, Recorded(target, result))
  {
    if result.Some? {
      var paths := result.value.forcePaths;
      var places := SiblingsOf(target, paths);
      var listed := Listed(target, places);
      forall i | 0 <= i < |listed| ensures exists k :: 0 <= k < |paths| && Place(target, paths[k]) == listed[i] {
        ListedIff(target, places, listed[i]);
        var k :| 0 <= k < |places| && places[k] == listed[i];
        assert Place(target, paths[k]) == listed[i];
      }
      forall i | 0 <= i < |listed| ensures listed[i] != target {
        ListedIff(target, places, listed[i]);
      }
      forall k | 0 <= k < |paths| && Place(target, paths[k]) != target ensures Place(target, paths[k]) in listed {
        assert places[k] == Place(target, paths[k]);
        ListedIff(target, places, places[k]);
      }
    }
  }

  // ----- what a plan moves -----

  /** The move takes a force path to its place beside the target. */
  ghost predicate TakesForced(target: string, paths: seq<string>, m: Move) {
    exists i :: 0 <= i < |paths| && m == Move(Norm(paths[i]), Place(target, paths[i]))
  }

  ghost predicate Covered(ms: seq<Move>, m: Move) {
    exists i :: 0 <= i < |ms| && (ms[i].source == m.source || ms[i].target == m.target)
  }

  /** The main file goes to the target first, every other move takes a force path to its place, and
      a force path is left out only where its source or its place is taken. */
  ghost predicate PlanFor(source: string, target: string, result: Option<ProcessorResult>, ms: seq<Move>) {
    match result
    case None => ms == [Move(source, target)]
    case Some(r) =>
      ms != [] && ms[0] == Move(Norm(r.finalPath), Norm(target)) &&
      (forall k :: 1 <= k < |ms| ==> TakesForced(target, r.forcePaths, ms[k])) &&
      (forall i :: 0 <= i < |r.forcePaths| ==>
          Covered(ms, Move(Norm(r.forcePaths[i]), Place(target, r.forcePaths[i]))))
  }

  lemma {:induction false} TakenCovers(first: Move, offers: seq<Move>, k: nat)
    requires k < |offers|
    ensures Covered(Taken(first, offers), offers[k])
    decreases |offers|
  {
    var n := |offers| - 1;
    var ms, m := Taken(first, offers[..n]), offers[n];
    if k < n {
      TakenCovers(first, offers[..n], k);
      var i :| 0 <= i < |ms| && (ms[i].source == offers[k].source || ms[i].target == offers[k].target);
      assert Take(ms, m)[i] == ms[i];
    } else if m.source in Sources(ms) {
      var i :| 0 <= i < |ms| && Sources(ms)[i] == m.source;
      assert ms[i].source == m.source;
    } else if m.target in Targets(ms) {
      var i :| 0 <= i < |ms| && Targets(ms)[i] == m.target;
      assert ms[i].target == m.target;
    } else {
      assert (ms + [m])[|ms|] == m;
    }
  }

  lemma PlanIsFor(source: string, target: string, result: Option<ProcessorResult>)
    ensures PlanFor(source, target, result, Plan(source, target, result))
  {
    if result.Some? {
      var r := result.value;
      var first, offers := Move(Norm(r.finalPath), Norm(target)), Offers(target, r.forcePaths);
      var ms := Taken(first, offers);
      forall k | 1 <= k < |ms| ensures TakesForced(target, r.forcePaths, ms[k]) {
        assert ms[k] == Secondary(first, offers)[k - 1];
        SecondaryOffered(first, offers, ms[k]);
        var i :| 0 <= i < |offers| && offers[i] == ms[k];
        assert offers[i] == Offer(target, r.forcePaths[i]);
      }
      forall i | 0 <= i < |r.forcePaths|
        ensures Covered(ms, Move(Norm(r.forcePaths[i]), Place(target, r.forcePaths[i])))
      {
        TakenCovers(first, offers, i);
        assert offers[i] == Offer(target, r.forcePaths[i]);
      }
    }
  }

  ghost predicate Agree(place: string -> string, offer: string -> Move) {
    forall s: string :: place(s) == offer(s).target
  }

  lemma MappedTargets(sources: seq<string>, place: string -> string, offer: string -> Move)
    requires Agree(place, offer)
    ensures Map(sources, place) == Targets(Map(sources, offer))
  {
  }

  // ----- results and their records -----

  ghost predicate AllTrimmed(paths: seq<string>) { forall i :: 0 <= i < |paths| ==> TrimmedText(paths[i]) }

  predicate TrimmedText(s: string) { s != "" && Text.Trimmed(s) }

  lemma StripStays(s: string)
    ensures Text.Strip(s) == s && !Blank(s) <==> TrimmedText(s)
  {
    var _, _ := Text.StripSlice(s);
  }

  /** Trimming keeps a list as it is if and only if every path in it is trimmed. */
  lemma CheckedIff(finalPath: string, kind: string, paths: seq<string>)
    ensures Checked(finalPath, kind, paths) == Some(ProcessorResult(finalPath, kind, paths)) <==>
            !Blank(finalPath) && !Blank(kind) && AllTrimmed(paths)
  {
    forall i | 0 <= i < |paths| ensures Text.Strip(paths[i]) == paths[i] && !Blank(paths[i]) <==>
        TrimmedText(paths[i]) {
      StripStays(paths[i]);
    }
    if AllTrimmed(paths) {
      assert Map(paths, Text.Strip) == paths;
    }
    if Checked(finalPath, kind, paths) == Some(ProcessorResult(finalPath, kind, paths)) {
      forall i | 0 <= i < |paths| ensures TrimmedText(paths[i]) {
        assert Map(paths, Text.Strip)[i] == paths[i];
      }
    }
  }

  /** Equally many distinct paths, each a trimmed one of the others: the lists are the same. */
  lemma TrimmedSame(listed: seq<string>, moved: seq<string>)
    requires NoDup(listed) && NoDup(moved) && Map(listed, Text.Strip) == moved
    requires forall t :: t in moved ==> t in listed
    ensures listed == moved
  {
    SameSize(moved, listed);
    forall i | 0 <= i < |listed| ensures listed[i] == moved[i] {
      assert multiset(listed)[listed[i]] > 0;
      assert listed[i] in moved;
      var j :| 0 <= j < |moved| && moved[j] == listed[i];
      var _, _ := Text.StripSlice(listed[j]);
    }
  }

  lemma {:induction false} ListedDistinct(first: string, targets: seq<string>)
    ensures NoDup(Listed(first, targets))
    decreases |targets|
  {
    if targets != [] {
      ListedDistinct(first, targets[..|targets| - 1]);
    }
  }

  lemma RecordedPlaces(target: string, kind: string, sources: seq<string>, place: string -> string,
      offer: string -> Move)
    requires Agree(place, offer)
    ensures RecordedAt(target, kind, Map(sources, place)) == RecordedAt(target, kind, Targets(Map(sources, offer)))
  {
    MappedTargets(sources, place, offer);
  }

  lemma RecordedOffers(target: string, r: ProcessorResult)
    ensures Recorded(target, Some(r)) == RecordedAt(target, r.kind, Targets(Offers(target, r.forcePaths)))
  {
    RecordedPlaces(target, r.kind, r.forcePaths, SiblingFrom(target), OfferFrom(target));
  }

  lemma PlanSecondary(source: string, target: string, r: ProcessorResult)
    requires Norm(target) == target
    ensures Plan(source, target, Some(r))[1..] == Secondary(Main(target, r), Offers(target, r.forcePaths))
  {
  }

  /** The move of the final path. */
  function Main(target: string, r: ProcessorResult): Move { Move(Norm(r.finalPath), target) }

  /** Among the force paths, those that normalise alike have the same place, unless it is the
      target itself. */
  ghost predicate Consistent(target: string, r: ProcessorResult) {
    Determined(Main(target, r), Offers(target, r.forcePaths))
  }

  /** The record's force paths equal the moved targets in order. */
  ghost predicate RecordRight(source: string, target: string, r: ProcessorResult) {
    Recorded(target, Some(r)) ==
        Some(Some(ProcessorResult(target, r.kind, Targets(Plan(source, target, Some(r))[1..]))))
  }

  /** What is recorded at the offers' level agrees with what is moved if and only if nothing in it
      is blank or untrimmed and striking out the first source's offers leaves the first mentions. */
  lemma RecordedAgreesIff(first: Move, kind: string, offers: seq<Move>)
    requires Determined(first, offers)
    ensures RecordedAt(first.target, kind, Targets(offers)) ==
            Some(Some(ProcessorResult(first.target, kind, Targets(Secondary(first, offers))))) <==>
            !Blank(first.target) && !Blank(kind) && AllTrimmed(Listed(first.target, Targets(offers))) &&
            Listed(first.target, Targets(offers)) == Listed(first.target, Targets(Others(first, offers)))
  {
    var t, listed, moved := first.target, Listed(first.target, Targets(offers)), Targets(Secondary(first, offers));
    MovedAreOthers(first, offers);
    CheckedIff(t, kind, listed);
    if RecordedAt(t, kind, Targets(offers)) == Some(Some(ProcessorResult(t, kind, moved))) {
      assert Map(listed, Text.Strip) == moved;
      ListedDistinct(t, Targets(offers));
      ListedDistinct(t, Targets(Others(first, offers)));
      forall x | x in moved ensures x in listed {
        MovedListed(first, offers, x);
      }
      TrimmedSame(listed, moved);
    }
  }

  lemma MovedListed(first: Move, offers: seq<Move>, x: string)
    requires x in Targets(Secondary(first, offers))
    ensures x in Listed(first.target, Targets(offers))
  {
    var ms := Secondary(first, offers);
    var i :| 0 <= i < |ms| && Targets(ms)[i] == x;
    SecondaryOffered(first, offers, ms[i]);
    var k :| 0 <= k < |offers| && offers[k] == ms[i];
    assert Targets(offers)[k] == x;
    ListedIff(first.target, Targets(offers), x);
  }

  /** The record lists exactly the secondary targets of the plan, in order, if and only if neither
      target nor kind is blank, every listed place is trimmed, and the first mentions stay the same
      when the force paths that normalise like the final path are struck out. */
  lemma RecordRightIff(source: string, target: string, r: ProcessorResult)
    requires Norm(target) == target && Consistent(target, r)
    ensures var offers := Offers(target, r.forcePaths);
            RecordRight(source, target, r) <==>
            !Blank(target) && !Blank(r.kind) && AllTrimmed(Listed(target, Targets(offers))) &&
            Listed(target, Targets(offers)) == Listed(target, Targets(Others(Main(target, r), offers)))
  {
    RecordedOffers(target, r);
    PlanSecondary(source, target, r);
    RecordedAgreesIff(Main(target, r), r.kind, Offers(target, r.forcePaths));
  }

  /** Listed and moved are the same paths, in whatever order, if and only if every place a force
      path that normalises like the final path asks for is the target or also asked for by another. */
  lemma SamePathsIff(source: string, target: string, r: ProcessorResult)
    requires Norm(target) == target && Consistent(target, r)
    ensures var first, offers := Main(target, r), Offers(target, r.forcePaths);
            (forall t :: t in Listed(target, Targets(offers)) <==>
                t in Targets(Plan(source, target, Some(r))[1..])) <==>
            (forall t :: Strays(first, offers, t) ==> Elsewhere(first, offers, t))
  {
    PlanSecondary(source, target, r);
    ListedMovedIff(Main(target, r), Offers(target, r.forcePaths));
  }

  /** For every result, consistent or not: each listed place receives the very file listed there if
      and only if the first mentions come from different files, none of them the final one. */
  lemma ListedFilesMovedIff(source: string, target: string, r: ProcessorResult)
    requires Norm(target) == target
    ensures var first, offers := Main(target, r), Offers(target, r.forcePaths);
            Plan(source, target, Some(r)) == [first] + Mentions(target, offers) <==>
            NoDup(Sources([first] + Mentions(target, offers)))
    ensures Targets(Mentions(target, Offers(target, r.forcePaths))) ==
            Listed(target, Targets(Offers(target, r.forcePaths)))
  {
    MentionsListed(target, Offers(target, r.forcePaths));
    MentionsMovedIff(Main(target, r), Offers(target, r.forcePaths));
  }

  /** The final path is not itself a force path, or those that normalise like it keep its place. */
  ghost predicate Apart(target: string, r: ProcessorResult) {
    NeverStrays(Main(target, r), Offers(target, r.forcePaths))
  }

  /** The promised case: no force path normalises like the final path under a place of its own. */
  lemma RecordListsMoves(source: string, target: string, r: ProcessorResult)
    requires Norm(target) == target && !Blank(target) && !Blank(r.kind) && Consistent(target, r) && Apart(target, r)
    requires AllTrimmed(Listed(target, Targets(Offers(target, r.forcePaths))))
    ensures RecordRight(source, target, r)
  {
    var first, offers := Main(target, r), Offers(target, r.forcePaths);
    RecordRightIff(source, target, r);
    ListedInOrder(first, offers);
    MovedAreOthers(first, offers);
  }

  // ----- for which pools of force paths every record is right -----

  ghost predicate From(paths: seq<string>, pool: set<string>) { forall i :: 0 <= i < |paths| ==> paths[i] in pool }

  /** What is recorded of these force paths is what is moved, in order. */
  ghost predicate OffersRight(first: Move, kind: string, offers: seq<Move>) {
    RecordedAt(first.target, kind, Targets(offers)) ==
    Some(Some(ProcessorResult(first.target, kind, Targets(Secondary(first, offers)))))
  }

  ghost predicate AlwaysRight(first: Move, kind: string, offer: string -> Move, pool: set<string>) {
    forall paths: seq<string> :: From(paths, pool) ==> OffersRight(first, kind, Map(paths, offer))
  }

  /** No path of the pool strays from the first source, none share a source but not a target, and
      all targets of their own are trimmed. */
  ghost predicate PoolOk(first: Move, offer: string -> Move, pool: set<string>) {
    (forall a :: a in pool ==> OwnOk(first, offer(a))) &&
    (forall a, b :: a in pool && b in pool && SameSource(first, offer(a), offer(b)) ==>
        offer(a).target == offer(b).target)
  }

  predicate OwnOk(first: Move, m: Move) {
    m.target != first.target ==> m.source != first.source && TrimmedText(m.target)
  }

  lemma OneOffer(first: Move, kind: string, m: Move)
    requires OffersRight(first, kind, [m])
    ensures !Blank(first.target) && !Blank(kind) && OwnOk(first, m)
  {
    assert Determined(first, [m]);
    RecordedAgreesIff(first, kind, [m]);
    if m.target != first.target {
      SoleOffer(first, m);
      assert TrimmedText([m.target][0]);
    }
  }

  lemma SoleOffer(first: Move, m: Move)
    requires m.target != first.target
    ensures Listed(first.target, Targets([m])) == [m.target]
    ensures Listed(first.target, Targets(Others(first, [m]))) == if m.source == first.source then [] else [m.target]
  {
    assert [m][..0] == [] && Targets([m]) == [m.target] && [m.target][..0] == [];
    assert Listed(first.target, []) == [] && Others(first, []) == [];
    assert Others(first, [m]) == if m.source == first.source then [] else [m];
    assert Targets([]) == [];
  }

  lemma TwoOffers(first: Move, kind: string, a: Move, b: Move)
    requires SameSource(first, a, b) && a.target != b.target && a.source != first.source
    ensures !OffersRight(first, kind, [a, b])
  {
    TakenPair(first, a, b);
    assert |Targets(Secondary(first, [a, b]))| == 1;
  }

  lemma PoolSuffices(first: Move, kind: string, offer: string -> Move, pool: set<string>, paths: seq<string>)
    requires !Blank(first.target) && !Blank(kind) && PoolOk(first, offer, pool) && From(paths, pool)
    ensures OffersRight(first, kind, Map(paths, offer))
  {
    var offers := Map(paths, offer);
    forall m | m in offers ensures exists a :: a in pool && offer(a) == m {
      var i :| 0 <= i < |paths| && offers[i] == m;
      assert paths[i] in pool && offer(paths[i]) == m;
    }
    assert Determined(first, offers);
    assert NeverStrays(first, offers) by {
      forall t ensures !Strays(first, offers, t) {
      }
    }
    var listed := Listed(first.target, Targets(offers));
    forall i | 0 <= i < |listed| ensures TrimmedText(listed[i]) {
      ListedIff(first.target, Targets(offers), listed[i]);
      var k :| 0 <= k < |offers| && Targets(offers)[k] == listed[i];
      assert offers[k] in offers;
    }
    RecordedAgreesIff(first, kind, offers);
    ListedInOrder(first, offers);
    MovedAreOthers(first, offers);
  }

  lemma PoolIff(first: Move, kind: string, offer: string -> Move, pool: set<string>)
    ensures AlwaysRight(first, kind, offer, pool) <==>
            !Blank(first.target) && !Blank(kind) && PoolOk(first, offer, pool)
  {
    if !Blank(first.target) && !Blank(kind) && PoolOk(first, offer, pool) {
      forall paths: seq<string> | From(paths, pool) ensures OffersRight(first, kind, Map(paths, offer)) {
        PoolSuffices(first, kind, offer, pool, paths);
      }
    }
    if AlwaysRight(first, kind, offer, pool) {
      assert From([], pool) && Map([], offer) == [];
      forall a | a in pool ensures OwnOk(first, offer(a)) {
        assert From([a], pool) && Map([a], offer) == [offer(a)];
        OneOffer(first, kind, offer(a));
      }
      forall a, b | a in pool && b in pool && SameSource(first, offer(a), offer(b))
          ensures offer(a).target == offer(b).target {
        assert From([a, b], pool) && Map([a, b], offer) == [offer(a), offer(b)];
        if offer(a).target != offer(b).target {
          TwoOffers(first, kind, offer(a), offer(b));
        }
      }
    }
  }

  /** Every result with this final path and kind and force paths from the pool is recorded right. */
  ghost predicate PoolRecordedRight(source: string, target: string, finalPath: string, kind: string,
      pool: set<string>) {
    forall paths: seq<string> :: From(paths, pool) ==>
        RecordRight(source, target, ProcessorResult(finalPath, kind, paths))
  }

  lemma RightAtOffers(source: string, target: string, r: ProcessorResult)
    requires Norm(target) == target
    ensures RecordRight(source, target, r) <==>
            OffersRight(Main(target, r), r.kind, Map(r.forcePaths, OfferFrom(target)))
  {
    RecordedOffers(target, r);
    PlanSecondary(source, target, r);
  }

  /** For every set of force paths: whatever list is drawn from it, the record lists exactly the moved
      targets in order, if and only if target and kind are not blank and every path with a place of
      its own is trimmed there, normalises unlike the final path, and shares its normal form only with
      paths of the same place. */
  lemma PoolRecordedRightIff(source: string, target: string, finalPath: string, kind: string, pool: set<string>)
    requires Norm(target) == target
    ensures PoolRecordedRight(source, target, finalPath, kind, pool) <==>
            !Blank(target) && !Blank(kind) && PoolOk(Move(Norm(finalPath), target), OfferFrom(target), pool)
  {
    var first, offer := Move(Norm(finalPath), target), OfferFrom(target);
    PoolIff(first, kind, offer, pool);
    forall paths: seq<string>
      ensures RecordRight(source, target, ProcessorResult(finalPath, kind, paths)) <==>
              OffersRight(first, kind, Map(paths, offer))
    {
      RightAtOffers(source, target, ProcessorResult(finalPath, kind, paths));
    }
  }

  // ----- paths that normalise alike -----

  /** Without backslashes, paths that normalise alike have the same name. */
  lemma SameName(a: string, b: string)
    requires NoBackslash(a) && NoBackslash(b) && Norm(a) == Norm(b)
    ensures Name(a) == Name(b)
  {
    NormClean(a);
    NormClean(b);
    PartsProper(a);
    PartsProper(b);
    RenderParses(RootOf(a), Parts(a));
    RenderParses(RootOf(b), Parts(b));
  }

  lemma SameOffer(target: string, a: string, b: string)
    requires NoBackslash(a) && NoBackslash(b) && OfferFrom(target)(a).source == OfferFrom(target)(b).source
    ensures OfferFrom(target)(a).target == OfferFrom(target)(b).target
  {
    SameName(a, b);
  }

  /** Force paths without backslashes are consistent. */
  lemma PlainPathsConsistent(target: string, r: ProcessorResult)
    requires forall i :: 0 <= i < |r.forcePaths| ==> NoBackslash(r.forcePaths[i])
    ensures Consistent(target, r)
  {
    var sources, offer := r.forcePaths, OfferFrom(target);
    forall a, b | a in sources && b in sources && offer(a).source == offer(b).source
        ensures offer(a).target == offer(b).target {
      SameOffer(target, a, b);
    }
  }

  /** A lone file name as a path. */
  lemma LoneName(s: string)
    requires Lone(s)
    ensures Norm(s) == s && Parts(s) == [s] && RootOf(s) == Relative
  {
    PartsSingle(s);
    NormSingle(s);
    SlashesIdentity(s);
  }

  /** Beside a lone file name, a path's place is its name. */
  lemma LonePlace(target: string, source: string)
    requires Lone(target) && Name(source) != ""
    ensures Place(target, source) == Slashes(Name(source))
  {
    LoneName(target);
    assert [] + [Name(source)] == [Name(source)] && "" + Name(source) == Name(source);
  }

  lemma LoneOffers(t: string, a: string)
    requires Lone(t) && Lone(a)
    ensures Offers(t, [a]) == [Move(a, a)]
  {
    LoneName(a);
    LonePlace(t, a);
    SlashesIdentity(a);
    assert Offers(t, [a])[0] == Offer(t, a);
  }

  /** A final path that is also a force path and is renamed on the way: the record lists a
      place nothing was moved to. */
  lemma ListedButNotMoved(source: string, t: string, r: ProcessorResult)
    requires Lone(t) && Lone(r.finalPath) && r.forcePaths == [r.finalPath] && r.finalPath != t
    ensures Listed(t, Targets(Offers(t, r.forcePaths))) == [r.finalPath]
    ensures Plan(source, t, Some(r)) == [Move(r.finalPath, t)]
  {
    LoneName(t);
    LoneName(r.finalPath);
    LoneOffers(t, r.finalPath);
    TakenTwin(Move(r.finalPath, t), Move(r.finalPath, r.finalPath));
  }

  lemma BackToSlash(p: string, q: string)
    requires Lone(p) && Lone(q)
    ensures Slashes(p + "\\" + q) == p + "/" + q && SingleText(p + "\\" + q)
  {
  }

  /** A single part. */
  predicate SingleText(s: string) { s != "" && s != "." && Splitting.Free(s, SLASH) }

  lemma SinglePart(s: string)
    requires SingleText(s)
    ensures Norm(s) == Slashes(s) && Name(s) == s
  {
    PartsSingle(s);
    NormSingle(s);
  }

  /** A backslash path normalises like the slash path and has another name. */
  lemma AlikeNames(p: string, q: string, back: string, slash: string)
    requires Lone(p) && Lone(q) && back == p + "\\" + q && slash == p + "/" + q
    ensures Norm(back) == slash == Norm(slash) && Name(back) == back && Name(slash) == q && Slashes(back) == slash
  {
    BackToSlash(p, q);
    SinglePart(back);
    JoinParts(p, q);
    SlashesIdentity(slash);
  }

  lemma JoinTwoParts(p: string, q: string)
    ensures Splitting.Join([p, q], '/') == p + "/" + q
  {
    Splitting.JoinTwo(p, '/', q);
    assert Splitting.Repeat('/', 1) == "/";
  }

  lemma JoinParts(p: string, q: string)
    requires Lone(p) && Lone(q)
    ensures Parts(p + "/" + q) == [p, q] && Collapse(p + "/" + q) == p + "/" + q
  {
    var parts := [p, q];
    assert Proper(parts);
    JoinTwoParts(p, q);
    PartsJoin(parts);
    assert "" + (p + "/" + q) == p + "/" + q;
    assert Render(Relative, parts) == p + "/" + q;
    RenderParses(Relative, parts);
  }

  /** Two force paths that normalise alike under different names: both places are listed, only the
      first is moved to, although the final path is no force path. */
  lemma AlikeListedTwice(source: string, t: string, p: string, q: string, back: string, slash: string,
      r: ProcessorResult)
    requires Lone(t) && Lone(p) && Lone(q) && t != q && back == p + "\\" + q && slash == p + "/" + q
    requires r.forcePaths == [back, slash] && Norm(r.finalPath) != slash
    ensures Listed(t, Targets(Offers(t, r.forcePaths))) == [slash, q]
    ensures Targets(Plan(source, t, Some(r))[1..]) == [slash]
    ensures !Consistent(t, r)
  {
    AlikeOffers(t, p, q, back, slash);
    LoneName(t);
    PlanSecondary(source, t, r);
    assert slash[|p|] == '/' && |slash| > |q|;
    LoneHasNoSlash(t, slash, |p|);
    AlikePair(Main(t, r), Move(slash, slash), Move(slash, q));
  }

  lemma AlikePair(first: Move, a: Move, b: Move)
    requires SameSource(first, a, b) && a.target != b.target && a.source != first.source
    ensures Listed(first.target, Targets([a, b])) == [a.target, b.target]
    ensures Targets(Secondary(first, [a, b])) == [a.target] && !Determined(first, [a, b])
  {
    TakenPair(first, a, b);
    assert a in [a, b] && b in [a, b];
  }

  lemma LoneHasNoSlash(t: string, s: string, k: nat)
    requires Lone(t) && k < |s| && s[k] == '/'
    ensures t != s
  {
  }

  lemma AlikeOffers(t: string, p: string, q: string, back: string, slash: string)
    requires Lone(t) && Lone(p) && Lone(q) && back == p + "\\" + q && slash == p + "/" + q
    ensures Offers(t, [back, slash]) == [Move(slash, slash), Move(slash, q)]
  {
    AlikeNames(p, q, back, slash);
    LonePlace(t, back);
    LonePlace(t, slash);
    SlashesIdentity(q);
    MapTwo(OfferFrom(t), back, slash, Move(slash, slash), Move(slash, q));
  }

  lemma MapTwo(offer: string -> Move, a: string, b: string, m: Move, n: Move)
    requires offer(a) == m && offer(b) == n
    ensures Map([a, b], offer) == [m, n]
  {
  }
}
