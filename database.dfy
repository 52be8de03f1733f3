/** The item store and its data-access interface (`mod database`).

    The store maps 128-bit identifiers to display names.  It is built once from
    four literal pairs and only ever read afterwards: every operation below is a
    function of the store value, so no operation can change it.

    The Rust `DB` trait is a bound that handlers are generic over.  Here it is the
    record `DbOps<D>` of its two operations over a store type `D`, which is what
    a trait bound amounts to once its dictionary is passed explicitly; any store
    type with such a record satisfying `Implements` can stand behind a handler. */
module Database {
  import opened Wrappers

  /** A UUID as the 128-bit number its 32 hex digits spell. */
  newtype Uuid = x: int | 0 <= x < 0x1_0000_0000_0000_0000_0000_0000_0000_0000

  /** One `(&Uuid, &String)` pair, as `all_items` yields it. */
  type Entry = (Uuid, string)

  /** The `DB` trait: `all_items(&self)` and `get_item(&self, id)`. */
  datatype DbOps<!D> = DbOps(allItems: D -> seq<Entry>, getItem: (D, Uuid) -> Option<string>)

  /** `es` lists the entries of `m`: each entry once, nothing else, in any order. */
  ghost predicate Enumerates(es: seq<Entry>, m: map<Uuid, string>) {
    && (forall i, j :: 0 <= i < j < |es| ==> es[i].0 != es[j].0)
    && (forall i :: 0 <= i < |es| ==> es[i].0 in m && m[es[i].0] == es[i].1)
    && (forall id :: id in m ==> exists i :: 0 <= i < |es| && es[i].0 == id)
  }

  /** The contract of the `DB` trait: the store value `db`, seen through `ops`,
      holds exactly the mapping `m`. */
  ghost predicate Implements<D>(ops: DbOps<D>, db: D, m: map<Uuid, string>) {
    && (forall id :: ops.getItem(db, id).Some? <==> id in m)
    && (forall id :: id in m ==> ops.getItem(db, id) == Some(m[id]))
    && Enumerates(ops.allItems(db), m)
  }

  /** An enumeration has exactly one element per key of the map. */
  lemma {:induction false} EnumerationSize(es: seq<Entry>, m: map<Uuid, string>)
    requires Enumerates(es, m)
    ensures |es| == |m|
  {
    if es == [] {
      assert m.Keys == {};
    } else {
      var k := es[0].0;
      var rest := m - {k};
      forall id | id in rest
        ensures exists i :: 0 <= i < |es[1..]| && es[1..][i].0 == id
      {
        var i :| 0 <= i < |es| && es[i].0 == id;
        assert i != 0;
        assert es[1..][i - 1].0 == id;
      }
      assert Enumerates(es[1..], rest);
      EnumerationSize(es[1..], rest);
    }
  }

  /** Two enumerations of the same map hold the same entries (possibly in
      another order). */
  lemma EnumerationsAgree(es1: seq<Entry>, es2: seq<Entry>, m: map<Uuid, string>)
    requires Enumerates(es1, m) && Enumerates(es2, m)
    ensures |es1| == |es2|
    ensures forall e :: e in es1 <==> e in es2
  {
    EnumerationSize(es1, m);
    EnumerationSize(es2, m);
    forall e | e in es1 ensures e in es2 {
      var i :| 0 <= i < |es2| && es2[i].0 == e.0;
      assert es2[i] == e;
    }
    forall e | e in es2 ensures e in es1 {
      var i :| 0 <= i < |es1| && es1[i].0 == e.0;
      assert es1[i] == e;
    }
  }

  /** Every finite non-empty set of ids has a least element. */
  lemma {:induction false} LeastOf(s: set<Uuid>) returns (k: Uuid)
    requires s != {}
    ensures k in s && forall j :: j in s ==> k <= j
    decreases |s|
  {
    var x :| x in s;
    if s == {x} {
      k := x;
    } else {
      var others := s - {x};
      var least := LeastOf(others);
      k := if x < least then x else least;
      forall j | j in s ensures k <= j {
        if j != x {
          assert j in others;
        }
      }
    }
  }

  lemma LeastExists(s: set<Uuid>)
    requires s != {}
    ensures exists k :: k in s && forall j :: j in s ==> k <= j
  {
    var k := LeastOf(s);
  }

  /** The least id of a set; it is unique, so the choice is deterministic. */
  function Least(s: set<Uuid>): (k: Uuid)
    requires s != {}
    ensures k in s && forall j :: j in s ==> k <= j
  {
    LeastExists(s);
    var k :| k in s && forall j :: j in s ==> k <= j; k
  }

  /** The entries of `m` by ascending id; `ListInOrder` uses it for keys that
      its order leaves out. */
  function Enumerate(m: map<Uuid, string>): (es: seq<Entry>)
    ensures Enumerates(es, m)
    decreases |m|
  {
    if |m| == 0 then
      []
    else
      var k := Least(m.Keys);
      var rest := m - {k};
      var tail := Enumerate(rest);
      EnumeratesCons(k, m, tail);
      [(k, m[k])] + tail
  }

  /** Putting a key's entry in front of an enumeration of the rest of the map
      enumerates the whole map. */
  lemma EnumeratesCons(k: Uuid, m: map<Uuid, string>, tail: seq<Entry>)
    requires k in m && Enumerates(tail, m - {k})
    ensures Enumerates([(k, m[k])] + tail, m)
  {
    var es := [(k, m[k])] + tail;
    forall id | id in m ensures exists i :: 0 <= i < |es| && es[i].0 == id {
      if id == k {
        assert es[0].0 == id;
      } else {
        assert id in m - {k};
        var i :| 0 <= i < |tail| && tail[i].0 == id;
        assert es[i + 1].0 == id;
      }
    }
  }

  /** `HashMap::iter().collect()` for a map whose buckets are visited in
      `order`: the entries of the ids of `order` that are keys, first
      occurrence only, then any keys `order` leaves out, by ascending id. */
  function ListInOrder(order: seq<Uuid>, m: map<Uuid, string>): (es: seq<Entry>)
    ensures forall i :: 0 <= i < |es| ==> es[i].0 in m && m[es[i].0] == es[i].1
  {
    if order == [] then
      Enumerate(m)
    else if order[0] in m then
      var k := order[0];
      [(k, m[k])] + ListInOrder(order[1..], m - {k})
    else
      ListInOrder(order[1..], m)
  }

  /** Whatever the order, the listing holds each entry of the map once and
      nothing else. */
  lemma {:induction false} ListInOrderEnumerates(order: seq<Uuid>, m: map<Uuid, string>)
    ensures Enumerates(ListInOrder(order, m), m)
  {
    if order != [] {
      var k := order[0];
      if k in m {
        ListInOrderEnumerates(order[1..], m - {k});
        EnumeratesCons(k, m, ListInOrder(order[1..], m - {k}));
      } else {
        ListInOrderEnumerates(order[1..], m);
      }
    }
  }

  /** When `order` lists the keys of `m` once each, the listing follows it
      exactly; so every order of the entries is one some map can produce. */
  lemma {:induction false} ListInOrderFollows(order: seq<Uuid>, m: map<Uuid, string>)
    requires forall i, j :: 0 <= i < j < |order| ==> order[i] != order[j]
    requires forall k :: k in m <==> k in order
    ensures |ListInOrder(order, m)| == |order|
    ensures forall i :: 0 <= i < |order| ==> ListInOrder(order, m)[i] == (order[i], m[order[i]])
  {
    if order == [] {
      assert m.Keys == {};
      assert |m| == 0;
    } else {
      var k, later := order[0], order[1..];
      var rest := m - {k};
      RestOfOrder(order, m);
      ListInOrderFollows(later, rest);
      var tail := ListInOrder(later, rest);
      var es := ListInOrder(order, m);
      assert es == [(k, m[k])] + tail;
      forall i | 0 <= i < |order| ensures es[i] == (order[i], m[order[i]]) {
        if i > 0 {
          assert es[i] == tail[i - 1] && later[i - 1] == order[i];
        }
      }
    }
  }

  /** Taking the first id off a listing of the keys leaves a listing of the
      other keys. */
  lemma RestOfOrder(order: seq<Uuid>, m: map<Uuid, string>)
    requires order != []
    requires forall i, j :: 0 <= i < j < |order| ==> order[i] != order[j]
    requires forall k :: k in m <==> k in order
    ensures order[0] in m
    ensures forall j :: j in m - {order[0]} <==> j in order[1..]
  {
    var later := order[1..];
    forall j ensures j in m - {order[0]} <==> j in later {
      if j in later {
        var i :| 0 <= i < |later| && later[i] == j;
        assert order[i + 1] == j;
      }
      if j in m - {order[0]} {
        var i :| 0 <= i < |order| && order[i] == j;
        assert later[i - 1] == j;
      }
    }
  }

  /** `HashMap::from_iter`: the pairs are inserted in order, so a later pair with
      the same id overwrites an earlier one. */
  function Collect(pairs: seq<Entry>): (m: map<Uuid, string>)
    ensures forall i :: 0 <= i < |pairs| ==> pairs[i].0 in m
  {
    if pairs == [] then
      map[]
    else
      var last := pairs[|pairs| - 1];
      Collect(pairs[..|pairs| - 1])[last.0 := last.1]
  }

  /** The collected map has exactly the ids of the pairs as keys, and each id
      holds the name of the last pair that carries it. */
  lemma {:induction false} CollectContents(pairs: seq<Entry>)
    ensures forall id :: id in Collect(pairs) <==> exists i :: 0 <= i < |pairs| && pairs[i].0 == id
    ensures forall i :: 0 <= i < |pairs| && (forall j :: i < j < |pairs| ==> pairs[j].0 != pairs[i].0) ==>
                          Collect(pairs)[pairs[i].0] == pairs[i].1
  {
    if pairs != [] {
      var n := |pairs| - 1;
      var init, last := pairs[..n], pairs[n];
      CollectContents(init);
      var m := Collect(pairs);
      assert m == Collect(init)[last.0 := last.1];
      forall id | id in m ensures exists i :: 0 <= i < |pairs| && pairs[i].0 == id {
        if id == last.0 {
          assert pairs[n].0 == id;
        } else {
          var i :| 0 <= i < |init| && init[i].0 == id;
          assert pairs[i].0 == id;
        }
      }
      forall id | exists i :: 0 <= i < |pairs| && pairs[i].0 == id ensures id in m {
        var i :| 0 <= i < |pairs| && pairs[i].0 == id;
        if i < n {
          assert init[i].0 == id;
        }
      }
      forall i | 0 <= i < |pairs| && (forall j :: i < j < |pairs| ==> pairs[j].0 != pairs[i].0)
        ensures m[pairs[i].0] == pairs[i].1
      {
        if i < n {
          assert pairs[i] == init[i];
          assert forall j :: i < j < |init| ==> init[j] == pairs[j];
        }
      }
    }
  }

  /** Collecting pairs with distinct ids loses nothing: one entry per pair. */
  lemma CollectDistinct(pairs: seq<Entry>)
    requires forall i, j :: 0 <= i < j < |pairs| ==> pairs[i].0 != pairs[j].0
    ensures |Collect(pairs)| == |pairs|
    ensures Enumerates(pairs, Collect(pairs))
  {
    CollectContents(pairs);
    EnumerationSize(pairs, Collect(pairs));
  }

  const AppleId: Uuid := 0xfd03f48c_af4f_4485_8a56_03e5354277ce
  const MarshmallowId: Uuid := 0xdeba1d8c_81fd_4273_9fcd_f4c5b5666fe2
  const EclairId: Uuid := 0x29cf7887_d228_41ca_883c_516cf3105634
  const MerveilleuxId: Uuid := 0x9103a2b0_af58_4db5_a9a8_cbdd7274e15a

  /** The literal array `MemoryDB::new` collects. */
  const Seed: seq<Entry> := [
    (AppleId, "Apple Pie"),
    (MarshmallowId, "Marshmallow"),
    (EclairId, "Eclair au chocolat"),
    (MerveilleuxId, "Merveilleux")
  ]

  /** The map `MemoryDB::new` builds from `Seed`. */
  const SeedMap: map<Uuid, string> := map[
    AppleId := "Apple Pie",
    MarshmallowId := "Marshmallow",
    EclairId := "Eclair au chocolat",
    MerveilleuxId := "Merveilleux"
  ]

  /** `MemoryDB`: the immutable in-memory store (its `Arc<HashMap<Uuid, String>>`).
      `hashOrder` is the order in which this map's buckets are visited, which
      Rust fixes from the map's own random hash keys (`RandomState`): two
      stores with the same items need not list them alike. */
  datatype MemoryDb = MemoryDb(items: map<Uuid, string>, hashOrder: seq<Uuid>) {

    /** `MemoryDB::new()`: exactly the four seed items, listed in whatever order
        the fresh map's hash keys give. */
    static function New(hashOrder: seq<Uuid>): (db: MemoryDb)
      ensures |db.items| == 4
      ensures db.items.Keys == {AppleId, MarshmallowId, EclairId, MerveilleuxId}
      ensures db.items[AppleId] == "Apple Pie"
      ensures db.items[MarshmallowId] == "Marshmallow"
      ensures db.items[EclairId] == "Eclair au chocolat"
      ensures db.items[MerveilleuxId] == "Merveilleux"
      ensures db.items == SeedMap
      ensures db.hashOrder == hashOrder
    {
      CollectDistinct(Seed);
      assert Seed[0].0 == AppleId && Seed[1].0 == MarshmallowId;
      assert Seed[2].0 == EclairId && Seed[3].0 == MerveilleuxId;
      assert Collect(Seed).Keys == SeedMap.Keys;
      MemoryDb(Collect(Seed), hashOrder)
    }

    /** `all_items`: every entry of the store once, in the map's iteration order. */
    function AllItems(): (es: seq<Entry>)
      ensures Enumerates(es, items)
      ensures |es| == |items|
    {
      var es := ListInOrder(hashOrder, items);
      ListInOrderEnumerates(hashOrder, items);
      EnumerationSize(es, items);
      es
    }

    /** `get_item`: map lookup; an absent id is `None`, never an error. */
    function GetItem(id: Uuid): (r: Option<string>)
      ensures r.Some? <==> id in items
      ensures r.Some? ==> r.value == items[id]
    {
      if id in items then Some(items[id]) else None
    }
  }

  /** `impl DB for MemoryDB`: every `MemoryDB` meets the `DB` contract for its
      own map. */
  function MemoryDbOps(): (ops: DbOps<MemoryDb>)
    ensures forall db: MemoryDb :: Implements(ops, db, db.items)
  {
    DbOps((db: MemoryDb) => db.AllItems(), (db: MemoryDb, id: Uuid) => db.GetItem(id))
  }

  /** Two seed stores list their items in their own hash orders: any order of
      the four seed ids is one `all_items` can return. */
  lemma SeedListsInHashOrder(hashOrder: seq<Uuid>)
    requires |hashOrder| == 4
    requires forall i, j :: 0 <= i < j < 4 ==> hashOrder[i] != hashOrder[j]
    requires forall k :: k in hashOrder <==> k in {AppleId, MarshmallowId, EclairId, MerveilleuxId}
    ensures |MemoryDb.New(hashOrder).AllItems()| == 4
    ensures forall i :: 0 <= i < 4 ==>
              MemoryDb.New(hashOrder).AllItems()[i].0 == hashOrder[i]
  {
    var db := MemoryDb.New(hashOrder);
    ListInOrderFollows(hashOrder, db.items);
  }
}
