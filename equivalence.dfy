/** The two wirings side by side: for the same store contents and the same
    request, the generic handlers of `trait_static.rs` and the handle-based
    handlers of `dynamic.rs` build the same view-model and render the same
    template on it. */
module Equivalence {
  import opened Wrappers
  import opened Database
  import opened Views
  import TraitStatic
  import Dynamic

  /** A handle that lists the same pairs as the static store gives the same
      index page. */
  lemma IndexAgrees<S, D>(app: TraitStatic.AppStateImpl<S, D>, s: S, st: Dynamic.AppState)
    requires st.templates == app.templates(s)
    requires st.db.allItems() == app.dbOps.allItems(app.db(s))
    ensures Dynamic.IndexView(st) == TraitStatic.IndexView(app, s)
    ensures Dynamic.Index(st) == TraitStatic.Index(app, s)
  {
  }

  /** A handle that answers the lookup of `id` as the static store does gives
      the same item page. */
  lemma ShowAgrees<S, D>(app: TraitStatic.AppStateImpl<S, D>, s: S, st: Dynamic.AppState, id: Uuid)
    requires st.templates == app.templates(s)
    requires st.db.getItem(id) == app.dbOps.getItem(app.db(s), id)
    ensures Dynamic.ShowView(st, id) == TraitStatic.ShowView(app, s, id)
    ensures Dynamic.Show(st, id) == TraitStatic.Show(app, s, id)
  {
  }

  /** Putting the static state's store behind a handle changes no response. */
  lemma ErasedStateAgrees<S, D>(app: TraitStatic.AppStateImpl<S, D>, s: S, id: Uuid)
    ensures Dynamic.Index(Dynamic.AppState(app.templates(s), Dynamic.Erase(app.dbOps, app.db(s)))) ==
            TraitStatic.Index(app, s)
    ensures Dynamic.Show(Dynamic.AppState(app.templates(s), Dynamic.Erase(app.dbOps, app.db(s))), id) ==
            TraitStatic.Show(app, s, id)
  {
    var st := Dynamic.AppState(app.templates(s), Dynamic.Erase(app.dbOps, app.db(s)));
    IndexAgrees(app, s, st);
    ShowAgrees(app, s, st, id);
  }

  /** The two `build_router`s, given the same template registry, give the
      same item pages, and index pages with the same title and the same items.
      Each builds its own `MemoryDB`, whose map has its own hash order, so the
      two index pages may list the items in different orders. */
  lemma BuildRoutersAgree(templates: Templates, staticOrder: seq<Uuid>, dynamicOrder: seq<Uuid>, id: Uuid)
    ensures Dynamic.Show(Dynamic.BuildState(templates, dynamicOrder), id) ==
            TraitStatic.Show(TraitStatic.RegularImpl(), TraitStatic.BuildState(templates, staticOrder), id)
    ensures Dynamic.IndexView(Dynamic.BuildState(templates, dynamicOrder)).title ==
            TraitStatic.IndexView(TraitStatic.RegularImpl(), TraitStatic.BuildState(templates, staticOrder)).title
    ensures |Dynamic.IndexView(Dynamic.BuildState(templates, dynamicOrder)).items| ==
            |TraitStatic.IndexView(TraitStatic.RegularImpl(), TraitStatic.BuildState(templates, staticOrder)).items|
    ensures forall v :: v in Dynamic.IndexView(Dynamic.BuildState(templates, dynamicOrder)).items <==>
                        v in TraitStatic.IndexView(TraitStatic.RegularImpl(), TraitStatic.BuildState(templates, staticOrder)).items
  {
    var app, s := TraitStatic.RegularImpl(), TraitStatic.BuildState(templates, staticOrder);
    var st := Dynamic.BuildState(templates, dynamicOrder);
    SameContentsSameShow(app, s, st, SeedMap, id);
    SameContentsSameListing(app, s, st, SeedMap);
  }

  /** Any two stores with the same contents, one wired statically and one
      behind a handle, give the same item page, whatever their types. */
  lemma SameContentsSameShow<S, D>(app: TraitStatic.AppStateImpl<S, D>, s: S, st: Dynamic.AppState,
                                   m: map<Uuid, string>, id: Uuid)
    requires st.templates == app.templates(s)
    requires Implements(app.dbOps, app.db(s), m) && Dynamic.HandleImplements(st.db, m)
    ensures Dynamic.Show(st, id) == TraitStatic.Show(app, s, id)
  {
    TraitStatic.ShowLooksUp(app, s, m, id);
    Dynamic.ShowLooksUp(st, m, id);
  }

  /** Any two stores with the same contents, one wired statically and one
      behind a handle, list the same items under the same title; only the
      order may differ, as the interface promises no order. */
  lemma SameContentsSameListing<S, D>(app: TraitStatic.AppStateImpl<S, D>, s: S, st: Dynamic.AppState,
                                      m: map<Uuid, string>)
    requires Implements(app.dbOps, app.db(s), m) && Dynamic.HandleImplements(st.db, m)
    ensures Dynamic.IndexView(st).title == TraitStatic.IndexView(app, s).title
    ensures |Dynamic.IndexView(st).items| == |TraitStatic.IndexView(app, s).items|
    ensures forall v :: v in Dynamic.IndexView(st).items <==> v in TraitStatic.IndexView(app, s).items
  {
    var vs1, vs2 := Dynamic.IndexView(st).items, TraitStatic.IndexView(app, s).items;
    EnumerationsAgree(Shown(vs1), Shown(vs2), m);
    ShownMembership(vs1);
    ShownMembership(vs2);
  }
}
