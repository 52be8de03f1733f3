/** The dynamic wiring (`dynamic.rs`): the application state holds the store
    behind a shared handle whose type does not mention the store's concrete
    type, so one set of handlers serves any store.

    An `Arc<dyn DB>` is a data pointer paired with the `DB` vtable; `DynDb` is
    that pair with the data already applied: the two operations bound to one
    store value.  `Erase` performs the unsizing coercion from a concrete store
    to the handle. */
module Dynamic {
  import opened Wrappers
  import opened Database
  import opened Views

  /** `Arc<dyn DB + Send + Sync>`. */
  datatype DynDb = DynDb(allItems: () -> seq<Entry>, getItem: Uuid -> Option<string>)

  /** Coerce a store of any type that implements `DB` into the shared handle;
      calls through the handle answer what the store itself answers. */
  function Erase<D>(ops: DbOps<D>, db: D): (h: DynDb)
    ensures h.allItems() == ops.allItems(db)
    ensures forall id :: h.getItem(id) == ops.getItem(db, id)
  {
    DynDb(() => ops.allItems(db), (id: Uuid) => ops.getItem(db, id))
  }

  /** Calls through the handle: `DB` dispatched on `Arc<dyn DB>`. */
  function HandleOps(): (ops: DbOps<DynDb>)
    ensures forall h: DynDb :: ops.allItems(h) == h.allItems()
    ensures forall h: DynDb, id :: ops.getItem(h, id) == h.getItem(id)
  {
    DbOps((h: DynDb) => h.allItems(), (h: DynDb, id: Uuid) => h.getItem(id))
  }

  /** The `DB` contract, stated of a handle: it holds exactly `m`. */
  ghost predicate HandleImplements(h: DynDb, m: map<Uuid, string>) {
    Implements(HandleOps(), h, m)
  }

  /** Erasing the store's type keeps the `DB` contract. */
  lemma EraseImplements<D>(ops: DbOps<D>, db: D, m: map<Uuid, string>)
    requires Implements(ops, db, m)
    ensures HandleImplements(Erase(ops, db), m)
  {
    var h := Erase(ops, db);
    forall id ensures (HandleOps().getItem(h, id).Some? <==> id in m)
                   && (id in m ==> HandleOps().getItem(h, id) == Some(m[id])) {
      assert h.getItem(id) == ops.getItem(db, id);
    }
  }

  /** `AppState { templates, db: Arc<dyn DB + Send + Sync> }`. */
  datatype AppState = AppState(templates: Templates, db: DynDb)

  /** The state `build_router` creates: a fresh `MemoryDB::new()` (its map's
      iteration order is `hashOrder`) behind the handle, and the registry
      `build_templates` produced. */
  function BuildState(templates: Templates, hashOrder: seq<Uuid>): (s: AppState)
    ensures s.templates == templates
    ensures HandleImplements(s.db, SeedMap)
    ensures s.db.allItems() == MemoryDb.New(hashOrder).AllItems()
  {
    var db := MemoryDb.New(hashOrder);
    EraseImplements(MemoryDbOps(), db, db.items);
    AppState(templates, Erase(MemoryDbOps(), db))
  }

  /** The view-model `index` builds: the fixed title and one item per pair of
      `state.db.all_items()`, in that order. */
  function IndexView(state: AppState): (v: IndexViewModel)
    ensures v.title == IndexTitle
    ensures Shown(v.items) == state.db.allItems()
  {
    var pairs := state.db.allItems();
    ShownProjectItems(pairs);
    IndexViewModel(IndexTitle, ProjectItems(pairs))
  }

  /** `index`: one render of the "index" template on that view-model. */
  function Index(state: AppState): (r: Result<Html, HandlerError>)
    ensures var page := state.templates(IndexTemplate, IndexPage(IndexView(state)));
            && (page.Ok? ==> r == Ok(page.value))
            && (page.Err? ==> r == Err(RenderFailed(page.error)))
  {
    RenderPage(state.templates, IndexTemplate, IndexPage(IndexView(state)))
  }

  /** The view-model `show` builds from `state.db.get_item(&id)`; an absent id
      is reported as not found where the Rust code unwraps `None`. */
  function ShowView(state: AppState, id: Uuid): (r: Result<ItemViewModel, HandlerError>)
    ensures r.Ok? <==> state.db.getItem(id).Some?
    ensures r.Ok? ==> r.value == ItemViewModel(state.db.getItem(id).value, id)
    ensures r.Err? ==> r.error == ItemNotFound(id)
  {
    match state.db.getItem(id)
    case Some(name) => Ok(ItemViewModel(name, id))
    case None => Err(ItemNotFound(id))
  }

  /** `show`: renders the "show" template once, on the found item, and renders
      nothing when the item is absent. */
  function Show(state: AppState, id: Uuid): (r: Result<Html, HandlerError>)
    ensures ShowView(state, id).Err? ==> r == Err(ItemNotFound(id))
    ensures ShowView(state, id).Ok? ==>
              var page := state.templates(ShowTemplate, ItemPage(ShowView(state, id).value));
              && (page.Ok? ==> r == Ok(page.value))
              && (page.Err? ==> r == Err(RenderFailed(page.error)))
  {
    match ShowView(state, id)
    case Ok(item) => RenderPage(state.templates, ShowTemplate, ItemPage(item))
    case Err(e) => Err(e)
  }

  /** Whatever store is behind the handle, if it holds `m` the index page lists
      every item of `m` exactly once, under the title "All Items". */
  lemma IndexListsStore(state: AppState, m: map<Uuid, string>)
    requires HandleImplements(state.db, m)
    ensures IndexView(state).title == "All Items"
    ensures Enumerates(Shown(IndexView(state).items), m)
    ensures |IndexView(state).items| == |m|
  {
    EnumerationSize(Shown(IndexView(state).items), m);
  }

  /** Whatever store is behind the handle, if it holds `m` then `show` finds
      exactly the stored name and reports any other id as not found. */
  lemma ShowLooksUp(state: AppState, m: map<Uuid, string>, id: Uuid)
    requires HandleImplements(state.db, m)
    ensures ShowView(state, id) == if id in m then Ok(ItemViewModel(m[id], id)) else Err(ItemNotFound(id))
  {
  }

  /** Swapping one store for another that holds the same items changes no
      item page. */
  lemma SwapStoreShow(s1: AppState, s2: AppState, m: map<Uuid, string>, id: Uuid)
    requires s1.templates == s2.templates
    requires HandleImplements(s1.db, m) && HandleImplements(s2.db, m)
    ensures Show(s1, id) == Show(s2, id)
  {
    ShowLooksUp(s1, m, id);
    ShowLooksUp(s2, m, id);
  }

  /** Swapping one store for another that holds the same items leaves the
      index page listing the same items, possibly in another order. */
  lemma SwapStoreIndex(s1: AppState, s2: AppState, m: map<Uuid, string>)
    requires HandleImplements(s1.db, m) && HandleImplements(s2.db, m)
    ensures IndexView(s1).title == IndexView(s2).title
    ensures |IndexView(s1).items| == |IndexView(s2).items|
    ensures forall v :: v in IndexView(s1).items <==> v in IndexView(s2).items
  {
    var vs1, vs2 := IndexView(s1).items, IndexView(s2).items;
    EnumerationsAgree(Shown(vs1), Shown(vs2), m);
    ShownMembership(vs1);
    ShownMembership(vs2);
  }
}
