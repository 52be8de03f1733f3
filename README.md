# axum dependency-injection demo: item store and handlers, in Dafny

This project models the data layer and request handlers of a small web demo.
The demo serves a read-only item store through two HTTP handlers, and wires the
store into them in two ways:

- `index` lists every item under the title "All Items".
- `show` displays one item, looked up by its UUID.

Each wiring is a separate service that builds its own store. The two wirings
are these:

- **static** (`src/trait_static.rs`): the handlers are generic over an
  application-state type `S: AppState`, whose associated store type `D`
  implements the `DB` trait. The store type is fixed at compile time.
- **dynamic** (`src/dynamic.rs`): the state holds the store as an
  `Arc<dyn DB + Send + Sync>`, so one set of handlers serves any store.

Both files contain identical copies of the store (`MemoryDB`, a
`HashMap<Uuid, String>` filled once from four literal pairs) and of the view-models
(`ItemViewModel`, `IndexViewModel`). The model defines these once:

- `database.dfy`: the `DB` interface and `MemoryDB`.
- `views.dfy`: the view-models and the renderer boundary.
- `trait_static.dfy` and `dynamic.dfy`: one module per wiring.
- `equivalence.dfy`: proves that the two wirings give the same responses for
  the same store contents.
- `seed.dfy`: proves facts about the services as built, over the four seed items.

The store is modelled as pure values, because it is never mutated after
construction. Every operation is a function of the store value, so no call can
change the map's keys or names. Dafny does not allow a function to have side
effects.

How Rust's features map onto the model:

- **The `DB` trait** is passed as an explicit dictionary. `DbOps<D>` holds the
  two operations over a store type `D`, and `Implements(ops, db, m)` is the
  trait's contract:
  - `get_item` is exactly lookup in `m`, and an absent id gives `None`;
  - `all_items` lists every entry of `m` once, in any order.
- **The `AppState` trait** of the static wiring is the record
  `AppStateImpl<S, D>`. It holds the `db()` and `templates()` accessors and the
  `D: DB` bound.
- **`Arc<dyn DB>`** is `DynDb`: the two operations already bound to one store
  value, so the handle's type does not mention the store's type. `Erase` is the
  coercion from a concrete store to this handle.
- **Handlebars** is a function value `Templates` from a template name and a
  view-model to HTML or a render error. Nothing is assumed about template
  contents.
- **`.unwrap()`**: the Rust handlers call `.unwrap()` on a missing item and on
  a render failure, which aborts the request. The model returns an error value
  instead: `ItemNotFound(id)` or `RenderFailed(e)`.
- **Iteration order**: each `HashMap` visits its entries in an order fixed by
  its own random hash keys (`RandomState`). Each `MemoryDb` therefore carries
  that order as a field, `hashOrder`, which `MemoryDb.New` takes as an
  unconstrained parameter. Two stores with the same items can list them in
  different orders.
- **UUIDs** are 128-bit numbers (`newtype Uuid`). The four seed ids are written
  as their hex values.

## Model

| member | source | states |
|---|---|---|
| `Database.MemoryDb.New` | src/trait_static.rs:128-151 | The store built at startup has exactly four distinct ids, and each id holds its literal name ("Apple Pie", "Marshmallow", "Eclair au chocolat", "Merveilleux"). Its iteration order is the one passed in, standing for the fresh map's `RandomState`. `src/dynamic.rs:95-118` builds the same store. |
| `Database.Collect` | src/trait_static.rs:149 | `items.into_iter().collect()` into a `HashMap`: every pair's id becomes a key. `CollectContents` states the whole result. |
| `Database.CollectContents` | src/trait_static.rs:148-150 | The map collected from a list of pairs has exactly the pairs' ids as keys. Each id holds the name of the last pair that carries it. |
| `Database.CollectDistinct` | src/trait_static.rs:129-150 | Collecting pairs with distinct ids gives one map entry per pair, and the list of pairs enumerates the resulting map. |
| `Database.Enumerate` | src/trait_static.rs:156-158 | Listing entries by ascending id yields each entry exactly once and nothing else. `ListInOrder` uses it for keys its order leaves out; this never happens for a real map's order. |
| `Database.ListInOrder` | src/trait_static.rs:157 | `self.items.iter().collect()` for a map visited in a given bucket order: every listed pair is an entry of the map. `ListInOrderEnumerates` states that every entry is listed exactly once, and `ListInOrderFollows` that the listing follows the order. `src/dynamic.rs:124` is the same code. |
| `Database.ListInOrderEnumerates` | src/trait_static.rs:156-158 | `self.items.iter().collect()`, whatever the map's hash order, yields each entry exactly once and nothing else. |
| `Database.ListInOrderFollows` | src/trait_static.rs:156-158 | When the hash order lists each key once, the listing follows that order exactly. So no order of the entries is ruled out. |
| `Database.SeedListsInHashOrder` | src/trait_static.rs:128-158 | For every ordering of the four seed ids, a seed store with that hash order lists its items in exactly that order. |
| `Database.EnumerationSize` | src/trait_static.rs:156-158 | Any duplicate-free enumeration of a map has exactly as many pairs as the map has keys. |
| `Database.EnumerationsAgree` | src/trait_static.rs:117-118 | Two enumerations of the same map have the same length and the same pairs; only their order can differ. |
| `Database.MemoryDb.AllItems` | src/trait_static.rs:156-158 | `all_items` returns one pair per map entry: its length is the map's size, no id repeats, and each returned `(id, name)` has `items[id] == name`. The pairs come in the store's own hash order (`ListInOrderFollows`). `src/dynamic.rs:123-125` is the same code. |
| `Database.MemoryDb.GetItem` | src/trait_static.rs:160-162 | `get_item(id)` returns `Some` exactly when `id` is a key, and then holds the stored name. Otherwise it returns `None`, never an error. `src/dynamic.rs:127-129` is the same code. |
| `Database.MemoryDbOps` | src/trait_static.rs:154-163 | `impl DB for MemoryDB`: every `MemoryDB` satisfies the `DB` interface contract for its own map, whatever its hash order. |
| `Views.ProjectItems` | src/trait_static.rs:83-88 | The map/collect over `all_items` gives one view-model per pair, in the same order. Each view-model's `uuid` and `name` are that pair's. |
| `Views.ShownProjectItems` | src/trait_static.rs:87 | The projection into view-models loses nothing: reading back `(uuid, name)` from each view-model gives the original pairs. |
| `Views.RenderPage` | src/trait_static.rs:95 | A successful render gives the template's HTML. A render failure is reported as `RenderFailed`, where the source's `.unwrap()` aborts. |
| `TraitStatic.IndexView` | src/trait_static.rs:81-93 | The view-model built by the generic `index` has the title "All Items". Its items show exactly the pairs that `state.db().all_items()` returned, in order. |
| `TraitStatic.Index` | src/trait_static.rs:81-96 | The generic `index` makes one render call: the "index" template on that view-model. Its result is that template's HTML, or `RenderFailed`. |
| `TraitStatic.ShowView` | src/trait_static.rs:98-105 | The generic `show` succeeds exactly when `get_item(&id)` finds a name, and then builds `{name, uuid: id}`. Otherwise it gives `ItemNotFound(id)`; the source panics here. |
| `TraitStatic.Show` | src/trait_static.rs:98-108 | If the item is absent, the generic `show` renders nothing and returns `ItemNotFound(id)`. Otherwise it makes one render call: the "show" template on the found item. |
| `TraitStatic.IndexListsStore` | src/trait_static.rs:81-93 | For any store type behind the state that holds map `m`, the index lists every item of `m` exactly once, with `|m|` items, under "All Items". |
| `TraitStatic.ShowLooksUp` | src/trait_static.rs:98-105 | For any store type behind the state that holds `m`, `show(id)` gives `{m[id], id}` when `id` is in `m`, and `ItemNotFound(id)` otherwise. |
| `TraitStatic.RegularImpl` | src/trait_static.rs:21-31 | `impl AppState for RegularAppState`: `db()` and `templates()` return the state's own fields. The store reached through `db()` satisfies the `DB` contract for its map. |
| `TraitStatic.BuildState` | src/trait_static.rs:33-38 | The state built by the static `build_router` holds the given template registry. Its store, reached through `db()`, holds exactly the seed map and lists it in the order of its own fresh store. |
| `Dynamic.Erase` | src/dynamic.rs:13-19 | Putting a store behind the `Arc<dyn DB>` handle preserves behaviour: every call through the handle answers what the store itself answers. |
| `Dynamic.HandleOps` | src/dynamic.rs:50-70 | `state.db.all_items()` and `state.db.get_item(&id)` dispatch through `Arc<dyn DB>`: each call on the handle answers with the handle's bound operation. `HandleImplements` states the `DB` contract through these calls. |
| `Dynamic.EraseImplements` | src/dynamic.rs:10-14 | A store that meets the `DB` contract for `m` still meets it once behind the handle. |
| `Dynamic.BuildState` | src/dynamic.rs:16-20 | The state built by the dynamic `build_router` holds the given template registry. Its handle holds exactly the seed map and lists it in the order of its own fresh store. |
| `Dynamic.IndexView` | src/dynamic.rs:49-61 | The view-model built by `index` has the title "All Items". Its items show exactly the pairs that `state.db.all_items()` returned, in order. |
| `Dynamic.Index` | src/dynamic.rs:49-64 | `index` makes one render call: the "index" template on that view-model. Its result is that template's HTML, or `RenderFailed`. |
| `Dynamic.ShowView` | src/dynamic.rs:66-72 | `show` succeeds exactly when `state.db.get_item(&id)` finds a name, and then builds `{name, uuid: id}`. Otherwise it gives `ItemNotFound(id)`; the source panics here. |
| `Dynamic.Show` | src/dynamic.rs:66-75 | If the item is absent, `show` renders nothing and returns `ItemNotFound(id)`. Otherwise it makes one render call: the "show" template on the found item. |
| `Dynamic.IndexListsStore` | src/dynamic.rs:49-61 | Whatever store is behind the handle, if it holds `m` the index lists every item of `m` exactly once, with `|m|` items, under "All Items". |
| `Dynamic.ShowLooksUp` | src/dynamic.rs:66-72 | Whatever store is behind the handle, if it holds `m` then `show(id)` gives `{m[id], id}` when `id` is in `m`, and `ItemNotFound(id)` otherwise. |
| `Dynamic.SwapStoreShow` | src/dynamic.rs:10-14 | Swapping the store behind the handle for another store with the same contents changes no `show` response. |
| `Dynamic.SwapStoreIndex` | src/dynamic.rs:10-14 | Swapping the store behind the handle for another store with the same contents keeps the index's title, length and set of items. |
| `Equivalence.IndexAgrees` | src/dynamic.rs:49-64 | If both stores list the same pairs, the dynamic `index` and the generic `index` (`src/trait_static.rs:81-96`) build the same view-model and give the same response. |
| `Equivalence.ShowAgrees` | src/dynamic.rs:66-75 | If both stores answer the lookup of `id` alike, the dynamic `show` and the generic `show` (`src/trait_static.rs:98-108`) build the same view-model and give the same response. |
| `Equivalence.ErasedStateAgrees` | src/dynamic.rs:16-20 | Putting the static state's store behind a handle leaves every `index` and `show` response unchanged. |
| `Equivalence.BuildRoutersAgree` | src/dynamic.rs:16-26 | With the same template registry, and whatever hash orders their two stores have, the dynamic `build_router` and the static one (`src/trait_static.rs:33-38`) give identical `show` responses. Their index pages have the same title, length and set of items; only the order may differ. |
| `Equivalence.SameContentsSameShow` | src/dynamic.rs:66-72 | A statically wired store and a store behind a handle with the same contents give the same `show` response, whatever their types. |
| `Equivalence.SameContentsSameListing` | src/dynamic.rs:49-61 | A statically wired store and a store behind a handle with the same contents give indexes with the same title, length and set of items. |
| `Seeded.SeedViewsAreSeed` | src/dynamic.rs:95-118 | The four seed view-models are exactly the entries of the seed store. |
| `Seeded.ShowApplePie` | src/dynamic.rs:66-72 | In both services, `show(fd03f48c-af4f-4485-8a56-03e5354277ce)` builds `{name: "Apple Pie", uuid: fd03f48c-…}`. |
| `Seeded.ShowAbsentNotFound` | src/dynamic.rs:66-75 | In both services, `show` on an id outside the four seed ids returns `ItemNotFound(id)` and renders nothing. |
| `Seeded.DynamicIndexListsSeed` | src/dynamic.rs:49-61 | The dynamic service's index has the title "All Items" and exactly the four seed items, in some order. |
| `Seeded.StaticIndexListsSeed` | src/trait_static.rs:81-93 | The static service's index has the title "All Items" and exactly the four seed items, in some order. |

## Left out

- HTTP plumbing (`src/main.rs`): the axum `Router`, the `route`/`with_state` wiring, the `Path`/`State` extractors, `Server::bind` and `tokio::join!`. The handlers are modelled as functions of the state and the request's id.
- Parsing the `/item/:id` path segment into a `Uuid` is done by axum's `Path<Uuid>` extractor, a foreign library. Ids reach the model already parsed, so a malformed id has no counterpart here.
- `build_templates` and Handlebars itself are external. The template registry is a function-valued parameter (`Templates`), and template contents and HTML output are not modelled.
- `async`/`await`, `#[async_trait]`, `Send + Sync` and `Arc` reference counting concern concurrency and sharing only. The store is an immutable value, and the handle is a record of the store's operations.
- The iteration order of `HashMap` is not derived from hashing. Each store's order is a parameter (`hashOrder`), chosen independently for each `MemoryDB::new()`. If that parameter omits keys, they are listed last by ascending id; a real map never omits keys. Where two stores may differ, the lemmas state only membership, count and distinctness.
- The model does not reproduce the two `.unwrap()` calls: both the missing item and the render failure become error values. There is no HTTP status mapping.
- The type-level part of the `AppState` trait, such as the `Clone + Send + Sync + 'static` bounds, is not modelled. Only its `db()`/`templates()` accessors and its `D: DB` bound are.
- `src/struct_static.rs` is a constant "Hello Struct" route with no logic, so it is not part of this model.
- `src/main.rs` is not part of this model. It is startup only, and as written it imports `trait_static` twice, never imports `dynamic`, and calls `struct_static::build_router` although that file defines `app`.
