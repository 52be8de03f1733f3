/** The view-models the handlers hand to the template engine, and the boundary
    with that engine.

    Handlebars is foreign code: the registry of templates is modelled as a
    function value `Templates` from a template name and the serialized
    view-model to either HTML or a render error.  Nothing here fixes what a
    template prints. */
module Views {
  import opened Wrappers
  import opened Database

  /** `ItemViewModel { name, uuid }`. */
  datatype ItemViewModel = ItemViewModel(name: string, uuid: Uuid)

  /** `IndexViewModel { title, items }`. */
  datatype IndexViewModel = IndexViewModel(title: string, items: seq<ItemViewModel>)

  /** The data a handler passes to `render`. */
  datatype View = IndexPage(index: IndexViewModel) | ItemPage(item: ItemViewModel)

  type Html = string

  datatype RenderError = RenderError(reason: string)

  /** A Handlebars registry: `render(template_name, &view)`. */
  type Templates = (string, View) -> Result<Html, RenderError>

  /** Why a handler produces no page.  The Rust handlers `unwrap()` in both
      cases, which aborts the request; here they are reported instead. */
  datatype HandlerError = ItemNotFound(id: Uuid) | RenderFailed(cause: RenderError)

  const IndexTitle := "All Items"
  const IndexTemplate := "index"
  const ShowTemplate := "show"

  /** The closure `|(uuid, name)| ItemViewModel { name, uuid }`. */
  function ToItemViewModel(e: Entry): ItemViewModel {
    ItemViewModel(e.1, e.0)
  }

  /** `.into_iter().map(...).collect()` over the pairs of `all_items`: one
      view-model per pair, in the same order. */
  function ProjectItems(es: seq<Entry>): (vs: seq<ItemViewModel>)
    ensures |vs| == |es|
    ensures forall i :: 0 <= i < |es| ==> vs[i].uuid == es[i].0 && vs[i].name == es[i].1
  {
    if es == [] then [] else [ToItemViewModel(es[0])] + ProjectItems(es[1..])
  }

  /** The `(id, name)` pairs a list of view-models shows. */
  function Shown(vs: seq<ItemViewModel>): (es: seq<Entry>)
    ensures |es| == |vs|
    ensures forall i :: 0 <= i < |vs| ==> es[i] == (vs[i].uuid, vs[i].name)
  {
    if vs == [] then [] else [(vs[0].uuid, vs[0].name)] + Shown(vs[1..])
  }

  /** Projecting loses nothing: the page shows exactly the pairs it was given. */
  lemma ShownProjectItems(es: seq<Entry>)
    ensures Shown(ProjectItems(es)) == es
  {
    var vs := ProjectItems(es);
    assert forall i :: 0 <= i < |es| ==> Shown(vs)[i] == es[i];
  }

  /** A view-model is on the page exactly when its pair is among the pairs shown. */
  lemma ShownMembership(vs: seq<ItemViewModel>)
    ensures forall v :: v in vs <==> (v.uuid, v.name) in Shown(vs)
  {
    var es := Shown(vs);
    forall v: ItemViewModel | (v.uuid, v.name) in es ensures v in vs {
      var i :| 0 <= i < |es| && es[i] == (v.uuid, v.name);
      assert vs[i] == v;
    }
  }

  /** When the pairs shown enumerate `m`, a view-model is on the page exactly
      when it carries an id of `m` with that id's name. */
  lemma ListedIffStored(vs: seq<ItemViewModel>, m: map<Uuid, string>)
    requires Enumerates(Shown(vs), m)
    ensures forall v :: v in vs <==> v.uuid in m && m[v.uuid] == v.name
  {
    var es := Shown(vs);
    forall v | v in vs ensures v.uuid in m && m[v.uuid] == v.name {
      var i :| 0 <= i < |vs| && vs[i] == v;
      assert es[i] == (v.uuid, v.name);
    }
    forall v: ItemViewModel | v.uuid in m && m[v.uuid] == v.name ensures v in vs {
      var i :| 0 <= i < |es| && es[i].0 == v.uuid;
      assert vs[i] == v;
    }
  }

  /** `Html(templates.render(name, &view).unwrap())`, with the render failure
      reported rather than aborting. */
  function RenderPage(templates: Templates, template: string, view: View): (r: Result<Html, HandlerError>)
    ensures r.Ok? <==> templates(template, view).Ok?
    ensures r.Ok? ==> r.value == templates(template, view).value
    ensures r.Err? ==> r.error == RenderFailed(templates(template, view).error)
  {
    match templates(template, view)
    case Ok(html) => Ok(html)
    case Err(e) => Err(RenderFailed(e))
  }
}
