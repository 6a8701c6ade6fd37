/** The plugin host: registration, profile activation and shutdown, with hooks that may fail. */
module PluginHost {
  import opened Wrappers
  import opened Seqs

  datatype Plugin = Plugin(
    id: string,
    profiles: set<string>,   // empty: every profile
    activates: bool,         // has an `on_activate` hook
    shutsDown: bool,         // has an `on_shutdown` hook
    conforms: bool)          // passes contract validation

  /** Hook calls that returned. */
  datatype Hook = Activated(id: string) | Stopped(id: string)

  datatype Host = Host(catalog: map<string, Plugin>, active: set<string>, log: seq<Hook>)

  const EMPTY := Host(map[], {}, [])

  predicate TwoHooks(h: Host, id: string) { id in h.catalog && h.catalog[id].activates && h.catalog[id].shutsDown }

  /** Activations minus shutdowns of a plugin. */
  function Balance(log: seq<Hook>, id: string): int {
    multiset(log)[Activated(id)] as int - multiset(log)[Stopped(id)] as int
  }

  /** A plugin with both hooks is active exactly when it was activated once more than stopped. */
  ghost predicate Balanced(h: Host) {
    h.active <= h.catalog.Keys &&
    (forall id :: TwoHooks(h, id) ==> Balance(h.log, id) == if id in h.active then 1 else 0) &&
    (forall id :: id !in h.catalog ==> Activated(id) !in h.log && Stopped(id) !in h.log)
  }

  // ----- registration -----

  /** The merged catalog, or `None` when some descriptor is a duplicate or breaks its contract. */
  function Merged(catalog: map<string, Plugin>, ds: seq<Plugin>): Option<map<string, Plugin>> {
    if ds == [] then Some(catalog)
    else
      var m, d := Merged(catalog, ds[..|ds| - 1]), ds[|ds| - 1];
      if m.None? || d.id in m.value || !d.conforms then None else Some(m.value[d.id := d])
  }

  function Register(h: Host, ds: seq<Plugin>): Host {
    var m := Merged(h.catalog, ds);
    if m.None? then h else h.(catalog := m.value)
  }

  lemma {:induction false} MergedExtends(catalog: map<string, Plugin>, ds: seq<Plugin>)
    requires Merged(catalog, ds).Some?
    ensures var m := Merged(catalog, ds).value;
            catalog.Keys <= m.Keys && (forall id :: id in catalog ==> m[id] == catalog[id]) &&
            (forall id :: id in m && id !in catalog ==> m[id].conforms && m[id] in ds)
    decreases |ds|
  {
    if ds != [] {
      MergedExtends(catalog, ds[..|ds| - 1]);
    }
  }

  /** Every descriptor keeps its contract and has an id of its own that is not in the catalog. */
  ghost predicate Registrable(catalog: map<string, Plugin>, ds: seq<Plugin>) {
    forall i :: 0 <= i < |ds| ==>
      ds[i].conforms && ds[i].id !in catalog && forall j :: 0 <= j < i ==> ds[j].id != ds[i].id
  }

  /** The catalog with the descriptors added under their ids. */
  ghost predicate AddedTo(catalog: map<string, Plugin>, ds: seq<Plugin>, m: map<string, Plugin>) {
    (forall i :: 0 <= i < |ds| ==> ds[i].id in m && m[ds[i].id] == ds[i]) &&
    (forall id :: id in catalog ==> id in m && m[id] == catalog[id]) &&
    (forall id :: id in m ==> id in catalog || m[id] in ds)
  }

  /** The last descriptor's id is not among those before it. */
  ghost predicate LastIsNew(ds: seq<Plugin>)
    requires ds != []
  {
    forall j :: 0 <= j < |ds| - 1 ==> ds[j].id != ds[|ds| - 1].id
  }

  lemma RegistrableGrows(catalog: map<string, Plugin>, ds: seq<Plugin>)
    requires ds != []
    ensures var d := ds[|ds| - 1];
            Registrable(catalog, ds) <==>
            Registrable(catalog, ds[..|ds| - 1]) && d.conforms && d.id !in catalog && LastIsNew(ds)
  {
    var n := |ds| - 1;
    assert forall j :: 0 <= j < n ==> ds[..n][j] == ds[j];
  }

  lemma AddedGrows(catalog: map<string, Plugin>, init: seq<Plugin>, d: Plugin, m: map<string, Plugin>)
    requires AddedTo(catalog, init, m) && d.id !in m
    ensures AddedTo(catalog, init + [d], m[d.id := d])
  {
    var ds := init + [d];
    assert ds[|init|] == d;
  }

  /** All descriptors or none. */
  lemma {:induction false} MergedIff(catalog: map<string, Plugin>, ds: seq<Plugin>)
    ensures Merged(catalog, ds).Some? <==> Registrable(catalog, ds)
    ensures Registrable(catalog, ds) ==> AddedTo(catalog, ds, Merged(catalog, ds).value)
    decreases |ds|
  {
    if ds != [] {
      var n := |ds| - 1;
      MergedIff(catalog, ds[..n]);
      RegistrableGrows(catalog, ds);
      if Registrable(catalog, ds[..n]) {
        var m := Merged(catalog, ds[..n]).value;
        MergedHas(catalog, ds[..n], m, ds[n].id);
        assert ds == ds[..n] + [ds[n]];
        if ds[n].id !in m {
          AddedGrows(catalog, ds[..n], ds[n], m);
        }
      }
    }
  }

  lemma MergedHas(catalog: map<string, Plugin>, ds: seq<Plugin>, m: map<string, Plugin>, id: string)
    requires Merged(catalog, ds) == Some(m) && AddedTo(catalog, ds, m)
    ensures id in m <==> id in catalog || exists j :: 0 <= j < |ds| && ds[j].id == id
  {
    if id in m && id !in catalog {
      MergedId(catalog, ds, id);
    }
  }

  lemma {:induction false} MergedId(catalog: map<string, Plugin>, ds: seq<Plugin>, id: string)
    requires Merged(catalog, ds).Some? && id in Merged(catalog, ds).value && id !in catalog
    ensures exists j :: 0 <= j < |ds| && ds[j].id == id
    decreases |ds|
  {
    var n := |ds| - 1;
    if ds[n].id != id {
      MergedId(catalog, ds[..n], id);
      var j :| 0 <= j < n && ds[..n][j].id == id;
      assert ds[j].id == id;
    }
  }

  lemma RegisterKeeps(h: Host, ds: seq<Plugin>)
    requires Balanced(h)
    ensures Balanced(Register(h, ds)) && Register(h, ds).active == h.active
  {
    if Merged(h.catalog, ds).Some? {
      MergedExtends(h.catalog, ds);
      var h' := Register(h, ds);
      forall id | TwoHooks(h', id) ensures Balance(h'.log, id) == if id in h'.active then 1 else 0 {
        if id in h.catalog {
          assert TwoHooks(h, id);
        }
      }
    }
  }

  // ----- selection -----

  datatype Request = Request(profile: string, known: Option<set<string>>, allow: set<string>, deny: set<string>)

  function KnownProfiles(catalog: map<string, Plugin>, r: Request): set<string> {
    if r.known.Some? then r.known.value
    else
      var found := set id, p | id in catalog && p in catalog[id].profiles :: p;
      if found != {} then found else {"default"}
  }

  /** The selected ids, or `None` when the request is refused. */
  function Select(catalog: map<string, Plugin>, r: Request): Option<set<string>> {
    if r.profile !in KnownProfiles(catalog, r) || r.allow * r.deny != {} ||
        !(r.allow + r.deny <= catalog.Keys) then None
    else Some(set id | id in catalog && id !in r.deny &&
                       (id in r.allow || catalog[id].profiles == {} || r.profile in catalog[id].profiles))
  }

  /** A request is granted when its profile is known, nothing is both allowed and denied, and every
      named plugin is registered. Profiles are known if listed or, without a list, if some plugin
      names them; where no plugin names any, there is one called "default". */
  ghost predicate Granted(catalog: map<string, Plugin>, r: Request) {
    (match r.known
     case Some(known) => r.profile in known
     case None => Named(catalog, r.profile) || (r.profile == "default" && forall p :: !Named(catalog, p))) &&
    (forall id :: !(id in r.allow && id in r.deny)) && (forall id :: id in r.allow || id in r.deny ==> id in catalog)
  }

  ghost predicate Named(catalog: map<string, Plugin>, profile: string) {
    exists id :: id in catalog && profile in catalog[id].profiles
  }

  /** A granted request selects what it allows and what fits the profile, but nothing it denies. */
  ghost predicate Chosen(catalog: map<string, Plugin>, r: Request, id: string) {
    id in catalog && id !in r.deny &&
    (id in r.allow || r.profile in catalog[id].profiles || forall p :: p !in catalog[id].profiles)
  }

  lemma SelectIff(catalog: map<string, Plugin>, r: Request)
    ensures Select(catalog, r).Some? <==> Granted(catalog, r)
    ensures Granted(catalog, r) ==> forall id :: id in Select(catalog, r).value <==> Chosen(catalog, r, id)
  {
    if r.known.None? {
      KnownIff(catalog, r);
    }
    assert r.allow * r.deny != {} <==> exists id :: id in r.allow && id in r.deny by {
      if r.allow * r.deny != {} {
        var id :| id in r.allow * r.deny;
      }
      if id :| id in r.allow && id in r.deny {
        assert id in r.allow * r.deny;
      }
    }
    forall id | id in catalog
      ensures catalog[id].profiles == {} <==> forall p :: p !in catalog[id].profiles
    {
      if catalog[id].profiles != {} {
        var p :| p in catalog[id].profiles;
      }
    }
  }

  lemma KnownIff(catalog: map<string, Plugin>, r: Request)
    requires r.known.None?
    ensures r.profile in KnownProfiles(catalog, r) <==>
            Named(catalog, r.profile) || (r.profile == "default" && forall p :: !Named(catalog, p))
  {
    var found := set id, p | id in catalog && p in catalog[id].profiles :: p;
    forall p ensures p in found <==> Named(catalog, p) {
    }
    if found != {} {
      var p :| p in found;
      assert Named(catalog, p);
    }
  }

  // ----- activation -----

  /** Hooks run up to the first failure. */
  datatype Progress = Progress(host: Host, failed: bool)

  function Stop(p: Progress, id: string, fails: bool): Progress {
    var h := p.host;
    if p.failed || id !in h.catalog then p
    else if !h.catalog[id].shutsDown then p.(host := h.(active := h.active - {id}))
    else if fails then p.(failed := true)
    else p.(host := h.(active := h.active - {id}, log := h.log + [Stopped(id)]))
  }

  function Start(p: Progress, id: string, fails: bool): Progress {
    var h := p.host;
    if p.failed || id !in h.catalog then p
    else if !h.catalog[id].activates then p.(host := h.(active := h.active + {id}))
    else if fails then p.(failed := true)
    else p.(host := h.(active := h.active + {id}, log := h.log + [Activated(id)]))
  }

  function StopAll(h: Host, ids: seq<string>, fails: string -> bool): Progress {
    if ids == [] then Progress(h, false)
    else Stop(StopAll(h, ids[..|ids| - 1], fails), ids[|ids| - 1], fails(ids[|ids| - 1]))
  }

  function StartAll(p: Progress, ids: seq<string>, fails: string -> bool): Progress {
    if ids == [] then p
    else Start(StartAll(p, ids[..|ids| - 1], fails), ids[|ids| - 1], fails(ids[|ids| - 1]))
  }

  /** How sets of ids are listed: each element once. The source sorts them. */
  type Order = set<string> -> seq<string>

  ghost predicate Lists(ids: seq<string>, s: set<string>) { NoDup(ids) && forall id :: id in ids <==> id in s }

  ghost predicate Orderly(order: Order) { forall s :: Lists(order(s), s) }

  function Switch(h: Host, selected: set<string>, order: Order, fails: string -> bool): Progress {
    var p := StopAll(h, order(h.active - selected), fails);
    StartAll(p, order(selected - h.active), fails)
  }

  /** `activate_profile`; a refused request changes nothing and counts as failed. */
  function Activate(h: Host, r: Request, order: Order, fails: string -> bool): Progress {
    var selected := Select(h.catalog, r);
    if selected.None? then Progress(h, true) else Switch(h, selected.value, order, fails)
  }

  lemma StopKeeps(p: Progress, id: string, fails: bool)
    requires Balanced(p.host) && id in p.host.active
    ensures Balanced(Stop(p, id, fails).host)
  {
  }

  lemma StartKeeps(p: Progress, id: string, fails: bool)
    requires Balanced(p.host) && id !in p.host.active && id in p.host.catalog
    ensures Balanced(Start(p, id, fails).host)
  {
    var h, h' := p.host, Start(p, id, fails).host;
    forall o | TwoHooks(h', o) ensures Balance(h'.log, o) == if o in h'.active then 1 else 0 {
      assert TwoHooks(h, o);
    }
  }

  ghost predicate Among(ids: seq<string>, s: set<string>) { forall i :: 0 <= i < |ids| ==> ids[i] in s }

  function Elements(ids: seq<string>): set<string> { set i | 0 <= i < |ids| :: ids[i] }

  lemma ElementsSnoc(ids: seq<string>)
    requires ids != []
    ensures Elements(ids) == Elements(ids[..|ids| - 1]) + {ids[|ids| - 1]}
  {
  }

  /** Stopping active plugins: balanced throughout; without a failure exactly they are gone. */
  lemma {:induction false} StopAllKeeps(h: Host, ids: seq<string>, fails: string -> bool)
    requires Balanced(h) && NoDup(ids) && Among(ids, h.active)
    ensures var p := StopAll(h, ids, fails);
            Balanced(p.host) && p.host.catalog == h.catalog && h.active - Elements(ids) <= p.host.active <= h.active &&
            (!p.failed ==> p.host.active == h.active - Elements(ids))
    decreases |ids|
  {
    if ids != [] {
      var n := |ids| - 1;
      StopAllKeeps(h, ids[..n], fails);
      StopKeeps(StopAll(h, ids[..n], fails), ids[n], fails(ids[n]));
      assert ids == ids[..n] + [ids[n]];
      ElementsSnoc(ids);
    }
  }

  lemma {:induction false} StartAllKeeps(p: Progress, ids: seq<string>, fails: string -> bool)
    requires Balanced(p.host) && NoDup(ids) && Among(ids, p.host.catalog.Keys) && Elements(ids) !! p.host.active
    ensures var q := StartAll(p, ids, fails);
            Balanced(q.host) && q.host.catalog == p.host.catalog &&
                p.host.active <= q.host.active <= p.host.active + Elements(ids) &&
            (p.failed ==> q == p) && (!q.failed ==> q.host.active == p.host.active + Elements(ids))
    decreases |ids|
  {
    if ids != [] {
      var n := |ids| - 1;
      assert ids == ids[..n] + [ids[n]];
      ElementsSnoc(ids);
      StartAllKeeps(p, ids[..n], fails);
      StartKeeps(StartAll(p, ids[..n], fails), ids[n], fails(ids[n]));
    }
  }

  lemma ListsElements(ids: seq<string>, s: set<string>)
    requires Lists(ids, s)
    ensures Elements(ids) == s && Among(ids, s)
  {
  }

  /** Switching keeps the hooks balanced however they fail, and on success the active plugins are
      exactly the selected ones. */
  lemma SwitchKeeps(h: Host, selected: set<string>, order: Order, fails: string -> bool)
    requires Balanced(h) && selected <= h.catalog.Keys && Orderly(order)
    ensures var p := Switch(h, selected, order, fails);
            Balanced(p.host) && p.host.catalog == h.catalog &&
                h.active * selected <= p.host.active <= h.active + selected &&
            (!p.failed ==> p.host.active == selected)
  {
    var gone, come := h.active - selected, selected - h.active;
    ListsElements(order(gone), gone);
    ListsElements(order(come), come);
    StopAllKeeps(h, order(gone), fails);
    StartAllKeeps(StopAll(h, order(gone), fails), order(come), fails);
  }

  // ----- which hooks run -----

  /** The times a hook call is in a log. */
  function Times(log: seq<Hook>, hook: Hook): nat { multiset(log)[hook] }

  lemma TimesGrow(log: seq<Hook>, last: Hook, hook: Hook)
    ensures Times(log + [last], hook) == Times(log, hook) + if hook == last then 1 else 0
  {
  }

  lemma LastOnly(ids: seq<string>, id: string)
    requires ids != [] && NoDup(ids)
    ensures var n := |ids| - 1;
            (id in ids <==> id in ids[..n] || id == ids[n]) && ids[n] !in ids[..n]
  {
    assert ids == ids[..|ids| - 1] + [ids[|ids| - 1]];
  }

  lemma StopHook(p: Progress, g: string, fails: bool, id: string)
    requires !p.failed && g in p.host.catalog && !Stop(p, g, fails).failed
    ensures var h, h' := p.host, Stop(p, g, fails).host;
            Times(h'.log, Activated(id)) == Times(h.log, Activated(id)) &&
            Times(h'.log, Stopped(id)) == Times(h.log, Stopped(id)) + if id == g && h.catalog[g].shutsDown then 1 else 0
  {
    TimesGrow(p.host.log, Stopped(g), Stopped(id));
    TimesGrow(p.host.log, Stopped(g), Activated(id));
  }

  /** Without a failure each listed plugin with a shutdown hook is stopped once, and nothing else runs. */
  lemma {:induction false} StopHooks(h: Host, ids: seq<string>, fails: string -> bool, id: string)
    requires NoDup(ids) && Among(ids, h.catalog.Keys) && !StopAll(h, ids, fails).failed
    ensures var h' := StopAll(h, ids, fails).host;
            h'.catalog == h.catalog && Times(h'.log, Activated(id)) == Times(h.log, Activated(id)) &&
            Times(h'.log, Stopped(id)) ==
                Times(h.log, Stopped(id)) + if id in ids && h.catalog[id].shutsDown then 1 else 0
    decreases |ids|
  {
    if ids != [] {
      var n := |ids| - 1;
      assert ids == ids[..n] + [ids[n]];
      StopHooks(h, ids[..n], fails, id);
      StopHook(StopAll(h, ids[..n], fails), ids[n], fails(ids[n]), id);
      LastOnly(ids, id);
    }
  }

  lemma StartHook(p: Progress, g: string, fails: bool, id: string)
    requires !p.failed && g in p.host.catalog && !Start(p, g, fails).failed
    ensures var h, h' := p.host, Start(p, g, fails).host;
            Times(h'.log, Stopped(id)) == Times(h.log, Stopped(id)) &&
            Times(h'.log, Activated(id)) ==
                Times(h.log, Activated(id)) + if id == g && h.catalog[g].activates then 1 else 0
  {
    TimesGrow(p.host.log, Activated(g), Stopped(id));
    TimesGrow(p.host.log, Activated(g), Activated(id));
  }

  lemma {:induction false} StartHooks(p: Progress, ids: seq<string>, fails: string -> bool, id: string)
    requires NoDup(ids) && Among(ids, p.host.catalog.Keys) && !StartAll(p, ids, fails).failed
    ensures var h, h' := p.host, StartAll(p, ids, fails).host;
            h'.catalog == h.catalog && Times(h'.log, Stopped(id)) == Times(h.log, Stopped(id)) &&
            Times(h'.log, Activated(id)) ==
                Times(h.log, Activated(id)) + if id in ids && h.catalog[id].activates then 1 else 0
    decreases |ids|
  {
    if ids != [] {
      var n := |ids| - 1;
      assert ids == ids[..n] + [ids[n]];
      StartHooks(p, ids[..n], fails, id);
      StartHook(StartAll(p, ids[..n], fails), ids[n], fails(ids[n]), id);
      LastOnly(ids, id);
    }
  }

  lemma {:induction false} StartAllFails(p: Progress, ids: seq<string>, fails: string -> bool)
    requires Among(ids, p.host.catalog.Keys) && !p.failed
    ensures StartAll(p, ids, fails).host.catalog == p.host.catalog
    ensures StartAll(p, ids, fails).failed <==>
            exists i :: 0 <= i < |ids| && p.host.catalog[ids[i]].activates && fails(ids[i])
    decreases |ids|
  {
    if ids != [] {
      var n := |ids| - 1;
      StartAllFails(p, ids[..n], fails);
      assert ids == ids[..n] + [ids[n]];
      if i :| 0 <= i < |ids| && p.host.catalog[ids[i]].activates && fails(ids[i]) {
        assert i < n ==> ids[..n][i] == ids[i];
      }
    }
  }

  /** Whether a plugin's hook raises when the active set changes to the chosen one. */
  ghost predicate HookRaises(h: Host, r: Request, fails: string -> bool, id: string) {
    id in h.catalog && fails(id) &&
    ((id in h.active && !Chosen(h.catalog, r, id) && h.catalog[id].shutsDown) ||
     (id !in h.active && Chosen(h.catalog, r, id) && h.catalog[id].activates))
  }

  /** An activation succeeds if and only if the request is granted and no hook it runs raises. */
  lemma ActivateIff(h: Host, r: Request, order: Order, fails: string -> bool)
    requires Balanced(h) && Orderly(order)
    ensures !Activate(h, r, order, fails).failed <==>
            Granted(h.catalog, r) && forall id :: !HookRaises(h, r, fails, id)
  {
    SelectIff(h.catalog, r);
    if Granted(h.catalog, r) {
      var selected := Select(h.catalog, r).value;
      var gone, come := order(h.active - selected), order(selected - h.active);
      ListsElements(gone, h.active - selected);
      ListsElements(come, selected - h.active);
      StopAllFails(h, gone, fails);
      var p := StopAll(h, gone, fails);
      if p.failed {
        StartNothing(p, come, fails);
        var i :| 0 <= i < |gone| && h.catalog[gone[i]].shutsDown && fails(gone[i]);
        assert HookRaises(h, r, fails, gone[i]);
      } else {
        StartAllFails(p, come, fails);
        forall id | HookRaises(h, r, fails, id) ensures StartAll(p, come, fails).failed {
          assert id in gone || id in come;
        }
        if StartAll(p, come, fails).failed {
          var i :| 0 <= i < |come| && p.host.catalog[come[i]].activates && fails(come[i]);
          assert HookRaises(h, r, fails, come[i]);
        }
      }
    }
  }

  /** A successful activation runs each hook that the change calls for once and no other. */
  lemma ActivateHooks(h: Host, r: Request, order: Order, fails: string -> bool, id: string)
    requires Balanced(h) && Orderly(order) && !Activate(h, r, order, fails).failed
    ensures var h' := Activate(h, r, order, fails).host;
            Times(h'.log, Stopped(id)) == Times(h.log, Stopped(id)) +
                (if id in h.active && !Chosen(h.catalog, r, id) && h.catalog[id].shutsDown then 1 else 0) &&
            Times(h'.log, Activated(id)) == Times(h.log, Activated(id)) +
                (if id !in h.active && Chosen(h.catalog, r, id) && h.catalog[id].activates then 1 else 0)
  {
    SelectIff(h.catalog, r);
    var selected := Select(h.catalog, r).value;
    var gone, come := order(h.active - selected), order(selected - h.active);
    ListsElements(gone, h.active - selected);
    ListsElements(come, selected - h.active);
    var p := StopAll(h, gone, fails);
    if p.failed {
      StartNothing(p, come, fails);
    }
    StopHooks(h, gone, fails, id);
    StartHooks(p, come, fails, id);
  }

  lemma ActivateKeeps(h: Host, r: Request, order: Order, fails: string -> bool)
    requires Balanced(h) && Orderly(order)
    ensures var p := Activate(h, r, order, fails);
            Balanced(p.host) && p.host.catalog == h.catalog &&
            (!p.failed ==> Select(h.catalog, r) == Some(p.host.active))
  {
    var selected := Select(h.catalog, r);
    if selected.Some? {
      SwitchKeeps(h, selected.value, order, fails);
    }
  }

  // ----- shutdown -----

  /** `shutdown`: the hooks of all active plugins; the active set is cleared only at the end. */
  function Shutdown(h: Host, order: Order, fails: string -> bool): Progress {
    var p := StopAll(h, order(h.active), fails);
    if p.failed then Progress(h.(log := p.host.log), true) else Progress(p.host.(active := {}), false)
  }

  /** A shutdown that returns leaves no plugin active and the hooks balanced. */
  lemma ShutdownKeeps(h: Host, order: Order, fails: string -> bool)
    requires Balanced(h) && Orderly(order) && !Shutdown(h, order, fails).failed
    ensures Balanced(Shutdown(h, order, fails).host) && Shutdown(h, order, fails).host.active == {}
  {
    ListsElements(order(h.active), h.active);
    StopAllKeeps(h, order(h.active), fails);
  }

  lemma {:induction false} StopAllFails(h: Host, ids: seq<string>, fails: string -> bool)
    requires Among(ids, h.catalog.Keys)
    ensures StopAll(h, ids, fails).host.catalog == h.catalog
    ensures StopAll(h, ids, fails).failed <==>
            exists i :: 0 <= i < |ids| && h.catalog[ids[i]].shutsDown && fails(ids[i])
    decreases |ids|
  {
    if ids != [] {
      var n := |ids| - 1;
      StopAllFails(h, ids[..n], fails);
      assert ids == ids[..n] + [ids[n]];
      if exists i :: 0 <= i < |ids| && h.catalog[ids[i]].shutsDown && fails(ids[i]) {
        var i :| 0 <= i < |ids| && h.catalog[ids[i]].shutsDown && fails(ids[i]);
        assert i < n ==> ids[..n][i] == ids[i];
      }
    }
  }

  /** A shutdown returns if and only if no active plugin's hook raises, and has then run the hook of
      every active plugin that has one, once. */
  lemma ShutdownIff(h: Host, order: Order, fails: string -> bool, id: string)
    requires Balanced(h) && Orderly(order)
    ensures var p := Shutdown(h, order, fails);
            (p.failed <==> exists o :: o in h.active && h.catalog[o].shutsDown && fails(o)) &&
            (!p.failed ==>
               Times(p.host.log, Activated(id)) == Times(h.log, Activated(id)) &&
               Times(p.host.log, Stopped(id)) ==
                   Times(h.log, Stopped(id)) + if id in h.active && h.catalog[id].shutsDown then 1 else 0)
  {
    var ids := order(h.active);
    ListsElements(ids, h.active);
    StopAllFails(h, ids, fails);
    if o :| o in h.active && h.catalog[o].shutsDown && fails(o) {
      var i :| 0 <= i < |ids| && ids[i] == o;
    }
    if !StopAll(h, ids, fails).failed {
      StopHooks(h, ids, fails, id);
    }
  }

  /** A plugin is stopped by the pass when its hook comes before the first failing one. */
  ghost predicate StoppedBefore(h: Host, ids: seq<string>, fails: string -> bool, i: nat)
    requires i < |ids| && Among(ids, h.catalog.Keys)
  {
    h.catalog[ids[i]].shutsDown && forall j :: 0 <= j <= i && h.catalog[ids[j]].shutsDown ==> !fails(ids[j])
  }

  /** The active set says which plugins a pass has stopped. */
  lemma {:induction false} StopAllActive(h: Host, ids: seq<string>, fails: string -> bool, i: nat)
    requires Balanced(h) && NoDup(ids) && Among(ids, h.active) && i < |ids| && TwoHooks(h, ids[i])
    ensures Among(ids, h.catalog.Keys) &&
            (ids[i] !in StopAll(h, ids, fails).host.active <==> StoppedBefore(h, ids, fails, i))
    decreases |ids|
  {
    var n := |ids| - 1;
    assert ids == ids[..n] + [ids[n]];
    StopAllKeeps(h, ids[..n], fails);
    StopAllFails(h, ids[..n], fails);
    if i < n {
      StopAllActive(h, ids[..n], fails, i);
      assert StoppedBefore(h, ids[..n], fails, i) <==> StoppedBefore(h, ids, fails, i) by {
        assert forall j :: 0 <= j <= i ==> ids[..n][j] == ids[j];
      }
    } else {
      assert ids[n] !in Elements(ids[..n]);
      assert forall j :: 0 <= j < n ==> ids[..n][j] == ids[j];
    }
  }

  /** Whether a failing shutdown stops some two-hook plugin before the failure. */
  ghost predicate StopsSome(h: Host, ids: seq<string>, fails: string -> bool)
    requires Among(ids, h.catalog.Keys)
  {
    exists i: nat :: i < |ids| && TwoHooks(h, ids[i]) && StoppedBefore(h, ids, fails, i)
  }

  /** A raising shutdown keeps the hooks balanced if and only if no plugin with both hooks was
      stopped before the one that raised. */
  lemma RaisingShutdownIff(h: Host, order: Order, fails: string -> bool)
    requires Balanced(h) && Orderly(order) && Shutdown(h, order, fails).failed
    ensures Among(order(h.active), h.catalog.Keys)
    ensures Balanced(Shutdown(h, order, fails).host) <==> !StopsSome(h, order(h.active), fails)
  {
    var ids := order(h.active);
    ListsElements(ids, h.active);
    StopAllKeeps(h, ids, fails);
    var p, h' := StopAll(h, ids, fails).host, Shutdown(h, order, fails).host;
    forall id | TwoHooks(h, id) ensures Balance(h'.log, id) == if id in p.active then 1 else 0 {
      assert TwoHooks(p, id);
    }
    forall i: nat | i < |ids| && TwoHooks(h, ids[i])
      ensures ids[i] !in p.active <==> StoppedBefore(h, ids, fails, i)
    {
      StopAllActive(h, ids, fails, i);
    }
    if !StopsSome(h, ids, fails) {
      forall id | TwoHooks(h', id) ensures Balance(h'.log, id) == if id in h'.active then 1 else 0 {
        assert TwoHooks(h, id);
        if id in h.active {
          var i: nat :| i < |ids| && ids[i] == id;
        }
      }
    } else {
      var i: nat :| i < |ids| && TwoHooks(h, ids[i]) && StoppedBefore(h, ids, fails, i);
      assert TwoHooks(h', ids[i]) && ids[i] in h'.active && Balance(h'.log, ids[i]) == 0;
    }
  }

  function BothHooks(id: string): Plugin { Plugin(id, {}, true, true, true) }

  /** Two active plugins, the second to be stopped raises: the first stays listed as active. */
  lemma RaisingShutdownUnbalances(order: Order, fails: string -> bool, a: string, b: string)
    requires Orderly(order) && order({a, b}) == [b, a] && a != b && fails(a) && !fails(b)
    ensures var h := Host(map[a := BothHooks(a), b := BothHooks(b)], {a, b}, [Activated(a), Activated(b)]);
            Balanced(h) && Shutdown(h, order, fails).failed && !Balanced(Shutdown(h, order, fails).host)
  {
    var h := Host(map[a := BothHooks(a), b := BothHooks(b)], {a, b}, [Activated(a), Activated(b)]);
    var ids := [b, a];
    assert Balanced(h);
    assert Among(ids, h.catalog.Keys);
    StopAllFails(h, ids, fails);
    assert ids[1] == a && h.catalog[ids[1]].shutsDown;
    RaisingShutdownIff(h, order, fails);
    assert TwoHooks(h, ids[0]) && StoppedBefore(h, ids, fails, 0);
  }

  // ----- whole runs -----

  datatype Op =
    | OpRegister(ds: seq<Plugin>)
    | OpActivate(request: Request, fails: string -> bool)
    | OpShutdown(fails: string -> bool)

  function Step(h: Host, op: Op, order: Order): Host {
    match op
    case OpRegister(ds) => Register(h, ds)
    case OpActivate(r, fails) => Activate(h, r, order, fails).host
    case OpShutdown(fails) => Shutdown(h, order, fails).host
  }

  function Run(ops: seq<Op>, order: Order): Host {
    if ops == [] then EMPTY else Step(Run(ops[..|ops| - 1], order), ops[|ops| - 1], order)
  }

  /** No shutdown of the run raises. */
  ghost predicate CalmShutdowns(ops: seq<Op>, order: Order) {
    forall i :: 0 <= i < |ops| && ops[i].OpShutdown? ==> !Shutdown(Run(ops[..i], order), order, ops[i].fails).failed
  }

  /** Over any run of registrations, activations and returning shutdowns, with activation and
      deactivation hooks failing arbitrarily, the hooks stay balanced. */
  lemma {:induction false} RunBalanced(ops: seq<Op>, order: Order)
    requires Orderly(order) && CalmShutdowns(ops, order)
    ensures Balanced(Run(ops, order))
    decreases |ops|
  {
    if ops != [] {
      var n := |ops| - 1;
      forall i | 0 <= i < n ensures ops[..n][..i] == ops[..i] {
      }
      RunBalanced(ops[..n], order);
      var h := Run(ops[..n], order);
      match ops[n]
      case OpRegister(ds) => RegisterKeeps(h, ds);
      case OpActivate(r, fails) => ActivateKeeps(h, r, order, fails);
      case OpShutdown(fails) => ShutdownKeeps(h, order, fails);
    }
  }

  // ----- the host object -----

  class Registry {
    var catalog: map<string, Plugin>
    var active: set<string>
    var log: seq<Hook>

    ghost function Value(): Host
      reads this
    {
      Host(catalog, active, log)
    }

    constructor ()
      ensures Value() == EMPTY
    {
      catalog, active, log := map[], {}, [];
    }

    method RegisterDescriptors(ds: seq<Plugin>) returns (ok: bool)
      requires Balanced(Value())
      modifies this
      ensures Value() == Register(old(Value()), ds) && Balanced(Value())
      ensures (ok <==> Registrable(old(catalog), ds)) && active == old(active) && log == old(log)
      ensures if ok then AddedTo(old(catalog), ds, catalog) else catalog == old(catalog)
    {
      RegisterKeeps(Value(), ds);
      MergedIff(catalog, ds);
      var merged := catalog;
      for i := 0 to |ds|
        invariant Merged(catalog, ds[..i]) == Some(merged)
        invariant Value() == old(Value())
      {
        assert ds[..i + 1][..i] == ds[..i];
        if ds[i].id in merged || !ds[i].conforms {
          MergeFails(catalog, ds, i + 1);
          return false;
        }
        merged := merged[ds[i].id := ds[i]];
      }
      assert ds[..|ds|] == ds;
      catalog := merged;
      return true;
    }

    method ActivateProfile(r: Request, order: Order, fails: string -> bool) returns (ok: bool)
      requires Balanced(Value()) && Orderly(order)
      modifies this
      ensures Value() == Activate(old(Value()), r, order, fails).host && Balanced(Value()) && catalog == old(catalog)
      ensures ok == !Activate(old(Value()), r, order, fails).failed
      ensures ok <==> Granted(catalog, r) && forall id :: !HookRaises(old(Value()), r, fails, id)
      ensures ok ==> forall id :: id in active <==> Chosen(catalog, r, id)
    {
      ghost var start := Value();
      ActivateKeeps(start, r, order, fails);
      ActivateIff(start, r, order, fails);
      SelectIff(catalog, r);
      var selected := Select(catalog, r);
      if selected.None? {
        return false;
      }
      var removed, added := order(active - selected.value), order(selected.value - active);
      ListsElements(removed, active - selected.value);
      ListsElements(added, selected.value - active);
      StopAllFails(start, removed, fails);
      var failed := StopPlugins(removed, fails);
      if failed {
        StartNothing(Progress(Value(), true), added, fails);
        return false;
      }
      failed := StartPlugins(added, fails);
      return !failed;
    }

    method StopPlugins(ids: seq<string>, fails: string -> bool) returns (failed: bool)
      requires Among(ids, catalog.Keys)
      modifies this
      ensures Progress(Value(), failed) == StopAll(old(Value()), ids, fails)
    {
      ghost var start := Value();
      for i := 0 to |ids|
        invariant Progress(Value(), false) == StopAll(start, ids[..i], fails) && catalog == start.catalog
      {
        assert ids[..i + 1][..i] == ids[..i];
        var id := ids[i];
        if catalog[id].shutsDown {
          if fails(id) {
            StopHalts(start, ids, fails, i + 1);
            return true;
          }
          log := log + [Stopped(id)];
        }
        active := active - {id};
      }
      assert ids[..|ids|] == ids;
      return false;
    }

    method StartPlugins(ids: seq<string>, fails: string -> bool) returns (failed: bool)
      requires Among(ids, catalog.Keys)
      modifies this
      ensures Progress(Value(), failed) == StartAll(Progress(old(Value()), false), ids, fails)
    {
      ghost var start := Progress(Value(), false);
      for i := 0 to |ids|
        invariant Progress(Value(), false) == StartAll(start, ids[..i], fails) && catalog == start.host.catalog
      {
        assert ids[..i + 1][..i] == ids[..i];
        var id := ids[i];
        if catalog[id].activates {
          if fails(id) {
            StartHalts(start, ids, fails, i + 1);
            return true;
          }
          log := log + [Activated(id)];
        }
        active := active + {id};
      }
      assert ids[..|ids|] == ids;
      return false;
    }

    /** The hooks of `shutdown`, which leaves the active set alone until all have returned. */
    method RunShutdownHooks(ids: seq<string>, fails: string -> bool) returns (failed: bool)
      requires Among(ids, catalog.Keys)
      modifies this`log
      ensures log == StopAll(old(Value()), ids, fails).host.log && failed == StopAll(old(Value()), ids, fails).failed
    {
      ghost var start := Value();
      for i := 0 to |ids|
        invariant log == StopAll(start, ids[..i], fails).host.log && !StopAll(start, ids[..i], fails).failed
        invariant StopAll(start, ids[..i], fails).host.catalog == start.catalog
      {
        assert ids[..i + 1][..i] == ids[..i];
        if catalog[ids[i]].shutsDown {
          if fails(ids[i]) {
            StopHalts(start, ids, fails, i + 1);
            return true;
          }
          log := log + [Stopped(ids[i])];
        }
      }
      assert ids[..|ids|] == ids;
      return false;
    }

    method ShutdownAll(order: Order, fails: string -> bool) returns (ok: bool)
      requires Balanced(Value()) && Orderly(order)
      modifies this
      ensures Value() == Shutdown(old(Value()), order, fails).host
      ensures ok == !Shutdown(old(Value()), order, fails).failed
      ensures ok ==> Balanced(Value()) && active == {}
      ensures ok <==> forall id :: id in old(active) && id in catalog && catalog[id].shutsDown ==> !fails(id)
      ensures catalog == old(catalog) && (!ok ==> active == old(active))
    {
      ghost var start := Value();
      ShutdownIff(start, order, fails, "");
      ListsElements(order(active), active);
      StopAllKeeps(start, order(active), fails);
      var failed := RunShutdownHooks(order(active), fails);
      if failed {
        return false;
      }
      ShutdownKeeps(start, order, fails);
      active := {};
      return true;
    }
  }

  lemma {:induction false} MergeFails(catalog: map<string, Plugin>, ds: seq<Plugin>, i: nat)
    requires i <= |ds| && Merged(catalog, ds[..i]).None?
    ensures Merged(catalog, ds).None?
    decreases |ds| - i
  {
    if i < |ds| {
      assert ds[..i + 1][..i] == ds[..i];
      MergeFails(catalog, ds, i + 1);
    } else {
      assert ds[..i] == ds;
    }
  }

  lemma {:induction false} StopHalts(h: Host, ids: seq<string>, fails: string -> bool, i: nat)
    requires i <= |ids| && StopAll(h, ids[..i], fails).failed
    ensures StopAll(h, ids, fails) == StopAll(h, ids[..i], fails)
    decreases |ids| - i
  {
    if i < |ids| {
      assert ids[..i + 1][..i] == ids[..i];
      StopHalts(h, ids, fails, i + 1);
    } else {
      assert ids[..i] == ids;
    }
  }

  lemma {:induction false} StartHalts(p: Progress, ids: seq<string>, fails: string -> bool, i: nat)
    requires i <= |ids| && StartAll(p, ids[..i], fails).failed
    ensures StartAll(p, ids, fails) == StartAll(p, ids[..i], fails)
    decreases |ids| - i
  {
    if i < |ids| {
      assert ids[..i + 1][..i] == ids[..i];
      StartHalts(p, ids, fails, i + 1);
    } else {
      assert ids[..i] == ids;
    }
  }

  lemma StartNothing(p: Progress, ids: seq<string>, fails: string -> bool)
    requires p.failed
    ensures StartAll(p, ids, fails) == p
  {
  }
}
