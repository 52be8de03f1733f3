/** The static wiring (`trait_static.rs`): the handlers are generic over an
    application state type `S` that provides a store of some type `D`
    implementing the `DB` interface; the store type is fixed when the router is
    built, with no indirection at run time.

    Rust resolves the `AppState` trait bound at compile time; here its
    dictionary is the record `AppStateImpl<S, D>`: the associated type `D`, the
    accessors `db()` and `templates()`, and the `D: DB` bound as `DbOps<D>`. */
module TraitStatic {
  import opened Wrappers
  import opened Database
  import opened Views

  /** `trait AppState { type D: DB; fn db(&self) -> &Self::D; fn templates(&self) -> &Handlebars; }` */
  datatype AppStateImpl<!S, !D> = AppStateImpl(db: S -> D, templates: S -> Templates, dbOps: DbOps<D>)

  /** `RegularAppState { templates, db: MemoryDB }`. */
  datatype RegularAppState = RegularAppState(templates: Templates, db: MemoryDb)

  /** `impl AppState for RegularAppState`, with `type D = MemoryDB`: `db()`
      reaches the state's own store, which meets the `DB` contract for its map,
      and `templates()` its own registry. */
  function RegularImpl(): (app: AppStateImpl<RegularAppState, MemoryDb>)
    ensures forall s: RegularAppState :: app.db(s) == s.db && app.templates(s) == s.templates
    ensures forall s: RegularAppState :: Implements(app.dbOps, app.db(s), s.db.items)
  {
    AppStateImpl((s: RegularAppState) => s.db, (s: RegularAppState) => s.templates, MemoryDbOps())
  }

  /** The state `build_router` hands to `build::<RegularAppState>`: a fresh
      `MemoryDB::new()` (its map's iteration order is `hashOrder`) and the
      registry `build_templates` produced. */
  function BuildState(templates: Templates, hashOrder: seq<Uuid>): (s: RegularAppState)
    ensures s.templates == templates
    ensures Implements(RegularImpl().dbOps, RegularImpl().db(s), SeedMap)
    ensures RegularImpl().dbOps.allItems(RegularImpl().db(s)) == MemoryDb.New(hashOrder).AllItems()
  {
    RegularAppState(templates, MemoryDb.New(hashOrder))
  }

  /** The view-model `index::<S>` builds: the fixed title and one item per pair
      of `state.db().all_items()`, in that order. */
  function IndexView<S, D>(app: AppStateImpl<S, D>, state: S): (v: IndexViewModel)
    ensures v.title == IndexTitle
    ensures Shown(v.items) == app.dbOps.allItems(app.db(state))
  {
    var pairs := app.dbOps.allItems(app.db(state));
    ShownProjectItems(pairs);
    IndexViewModel(IndexTitle, ProjectItems(pairs))
  }

  /** `index::<S>`: one render of the "index" template on that view-model. */
  function Index<S, D>(app: AppStateImpl<S, D>, state: S): (r: Result<Html, HandlerError>)
    ensures var page := app.templates(state)(IndexTemplate, IndexPage(IndexView(app, state)));
            && (page.Ok? ==> r == Ok(page.value))
            && (page.Err? ==> r == Err(RenderFailed(page.error)))
  {
    RenderPage(app.templates(state), IndexTemplate, IndexPage(IndexView(app, state)))
  }

  /** The view-model `show::<S>` builds from `get_item(&id)`; an absent id is
      reported as not found where the Rust code unwraps `None`. */
  function ShowView<S, D>(app: AppStateImpl<S, D>, state: S, id: Uuid): (r: Result<ItemViewModel, HandlerError>)
    ensures r.Ok? <==> app.dbOps.getItem(app.db(state), id).Some?
    ensures r.Ok? ==> r.value == ItemViewModel(app.dbOps.getItem(app.db(state), id).value, id)
    ensures r.Err? ==> r.error == ItemNotFound(id)
  {
    match app.dbOps.getItem(app.db(state), id)
    case Some(name) => Ok(ItemViewModel(name, id))
    case None => Err(ItemNotFound(id))
  }

  /** `show::<S>`: renders the "show" template once, on the found item, and
      renders nothing when the item is absent. */
  function Show<S, D>(app: AppStateImpl<S, D>, state: S, id: Uuid): (r: Result<Html, HandlerError>)
    ensures ShowView(app, state, id).Err? ==> r == Err(ItemNotFound(id))
    ensures ShowView(app, state, id).Ok? ==>
              var page := app.templates(state)(ShowTemplate, ItemPage(ShowView(app, state, id).value));
              && (page.Ok? ==> r == Ok(page.value))
              && (page.Err? ==> r == Err(RenderFailed(page.error)))
  {
    match ShowView(app, state, id)
    case Ok(item) => RenderPage(app.templates(state), ShowTemplate, ItemPage(item))
    case Err(e) => Err(e)
  }

  /** For any store behind the state that holds `m`, the index page lists every
      item of `m` exactly once, under the title "All Items". */
  lemma IndexListsStore<S, D>(app: AppStateImpl<S, D>, state: S, m: map<Uuid, string>)
    requires Implements(app.dbOps, app.db(state), m)
    ensures IndexView(app, state).title == "All Items"
    ensures Enumerates(Shown(IndexView(app, state).items), m)
    ensures |IndexView(app, state).items| == |m|
  {
    var v := IndexView(app, state);
    EnumerationSize(Shown(v.items), m);
  }

  /** For any store behind the state that holds `m`, `show` finds exactly the
      stored name, and reports any other id as not found. */
  lemma ShowLooksUp<S, D>(app: AppStateImpl<S, D>, state: S, m: map<Uuid, string>, id: Uuid)
    requires Implements(app.dbOps, app.db(state), m)
    ensures ShowView(app, state, id) == if id in m then Ok(ItemViewModel(m[id], id)) else Err(ItemNotFound(id))
  {
  }
}
