/** The demo services as built at startup, over the four seed items.  Each
    service builds its own store, whose map has its own hash order
    (`staticOrder`, `dynamicOrder`). */
module Seeded {
  import opened Wrappers
  import opened Database
  import opened Views
  import TraitStatic
  import Dynamic

  /** `GET /item/fd03f48c-af4f-4485-8a56-03e5354277ce` shows "Apple Pie". */
  lemma ShowApplePie(templates: Templates, staticOrder: seq<Uuid>, dynamicOrder: seq<Uuid>)
    ensures Dynamic.ShowView(Dynamic.BuildState(templates, dynamicOrder), AppleId) ==
            Ok(ItemViewModel("Apple Pie", AppleId))
    ensures TraitStatic.ShowView(TraitStatic.RegularImpl(), TraitStatic.BuildState(templates, staticOrder), AppleId) ==
            Ok(ItemViewModel("Apple Pie", AppleId))
  {
    Dynamic.ShowLooksUp(Dynamic.BuildState(templates, dynamicOrder), SeedMap, AppleId);
    TraitStatic.ShowLooksUp(TraitStatic.RegularImpl(), TraitStatic.BuildState(templates, staticOrder), SeedMap, AppleId);
  }

  /** `GET /item/{id}` for an id outside the seed is reported as not found,
      without a render, where the Rust handler unwraps `None`. */
  lemma ShowAbsentNotFound(templates: Templates, staticOrder: seq<Uuid>, dynamicOrder: seq<Uuid>, id: Uuid)
    requires id !in SeedMap
    ensures Dynamic.Show(Dynamic.BuildState(templates, dynamicOrder), id) == Err(ItemNotFound(id))
    ensures TraitStatic.Show(TraitStatic.RegularImpl(), TraitStatic.BuildState(templates, staticOrder), id) ==
            Err(ItemNotFound(id))
  {
    Dynamic.ShowLooksUp(Dynamic.BuildState(templates, dynamicOrder), SeedMap, id);
    TraitStatic.ShowLooksUp(TraitStatic.RegularImpl(), TraitStatic.BuildState(templates, staticOrder), SeedMap, id);
  }

  /** The four seed items as the index page shows them. */
  const SeedViews: seq<ItemViewModel> := [
    ItemViewModel("Apple Pie", AppleId),
    ItemViewModel("Marshmallow", MarshmallowId),
    ItemViewModel("Eclair au chocolat", EclairId),
    ItemViewModel("Merveilleux", MerveilleuxId)
  ]

  /** The seed views are exactly the seed map's entries. */
  lemma SeedViewsAreSeed()
    ensures forall v :: v in SeedViews <==> v.uuid in SeedMap && SeedMap[v.uuid] == v.name
  {
    forall v: ItemViewModel | v.uuid in SeedMap && SeedMap[v.uuid] == v.name ensures v in SeedViews {
      if v.uuid == AppleId {
        assert v == SeedViews[0];
      } else if v.uuid == MarshmallowId {
        assert v == SeedViews[1];
      } else if v.uuid == EclairId {
        assert v == SeedViews[2];
      } else {
        assert v == SeedViews[3];
      }
    }
  }

  /** The dynamic service's `GET /` lists exactly the four seed items, in
      some order, under "All Items". */
  lemma DynamicIndexListsSeed(templates: Templates, dynamicOrder: seq<Uuid>)
    ensures Dynamic.IndexView(Dynamic.BuildState(templates, dynamicOrder)).title == "All Items"
    ensures |Dynamic.IndexView(Dynamic.BuildState(templates, dynamicOrder)).items| == 4
    ensures forall v :: v in Dynamic.IndexView(Dynamic.BuildState(templates, dynamicOrder)).items <==> v in SeedViews
  {
    var st := Dynamic.BuildState(templates, dynamicOrder);
    Dynamic.IndexListsStore(st, SeedMap);
    ListedIffStored(Dynamic.IndexView(st).items, SeedMap);
    SeedViewsAreSeed();
  }

  /** The static service's `GET /` lists exactly the four seed items, in
      some order, under "All Items". */
  lemma StaticIndexListsSeed(templates: Templates, staticOrder: seq<Uuid>)
    ensures TraitStatic.IndexView(TraitStatic.RegularImpl(), TraitStatic.BuildState(templates, staticOrder)).title ==
            "All Items"
    ensures |TraitStatic.IndexView(TraitStatic.RegularImpl(), TraitStatic.BuildState(templates, staticOrder)).items| == 4
    ensures forall v :: v in TraitStatic.IndexView(TraitStatic.RegularImpl(), TraitStatic.BuildState(templates, staticOrder)).items <==>
                        v in SeedViews
  {
    var app, s := TraitStatic.RegularImpl(), TraitStatic.BuildState(templates, staticOrder);
    TraitStatic.IndexListsStore(app, s, SeedMap);
    ListedIffStored(TraitStatic.IndexView(app, s).items, SeedMap);
    SeedViewsAreSeed();
  }
}
