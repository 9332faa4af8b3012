/**
 The category controller: create with a required name and a default
 description, partial update, the 404s of the by-id endpoints, and the
 per-category product counts.
 */
module CategoryOps {
  import opened Values
  import opened Collection
  import opened Records

  const DefaultDescription := "Sin descripción"

  /** `Category.findOne({ nombre })`, as the unique index sees it. */
  function CategoryNamed(cats: Table<Category>, nombre: string): (r: Option<nat>)
    ensures r.Some? ==> r.value < |cats| && cats[r.value].val.nombre == nombre
    ensures r.None? <==> forall j :: 0 <= j < |cats| ==> cats[j].val.nombre != nombre
  {
    FirstIndex(cats, (d: Doc<Category>) => d.val.nombre == nombre)
  }

  /** Some category other than the one at position `i` already has this name. */
  predicate NameTakenByOther(cats: Table<Category>, nombre: string, i: nat) {
    exists j :: 0 <= j < |cats| && j != i && cats[j].val.nombre == nombre
  }

  lemma UniqueNamesAppend(cats: Table<Category>, d: Doc<Category>)
    requires UniqueCategoryNames(cats)
    requires forall j :: 0 <= j < |cats| ==> cats[j].val.nombre != d.val.nombre
    ensures UniqueCategoryNames(cats + [d])
  {
    var t := cats + [d];
    forall i, j | 0 <= i < j < |t| ensures t[i].val.nombre != t[j].val.nombre {
      if j == |cats| {
        assert t[i] == cats[i];
      }
    }
  }

  lemma UniqueNamesSet(cats: Table<Category>, i: nat, c: Category)
    requires UniqueCategoryNames(cats) && i < |cats|
    requires !NameTakenByOther(cats, c.nombre, i)
    ensures UniqueCategoryNames(SetAt(cats, i, c))
  {
    var t := SetAt(cats, i, c);
    forall a, b | 0 <= a < b < |t| ensures t[a].val.nombre != t[b].val.nombre {
      if a == i {
        assert cats[b].val.nombre != c.nombre;
      } else if b == i {
        assert cats[a].val.nombre != c.nombre;
      }
    }
  }

  lemma UniqueNamesRemove(cats: Table<Category>, i: nat)
    requires UniqueCategoryNames(cats) && i < |cats|
    ensures UniqueCategoryNames(RemoveAt(cats, i))
  {
    var t := RemoveAt(cats, i);
    forall a, b | 0 <= a < b < |t| ensures t[a].val.nombre != t[b].val.nombre {
      var a' := if a < i then a else a + 1;
      var b' := if b < i then b else b + 1;
      assert t[a] == cats[a'] && t[b] == cats[b'];
    }
  }

  /**
   `create`: a missing name is a 400; a name already in use violates the
   unique index (500). A missing description becomes "Sin descripción", and
   a new category lists no products.
   */
  function Create(s: Store, nombre: string, descripcion: string, newId: Id): (r: Step<Doc<Category>>)
    ensures r.resp.Failure? ==> r.store == s
    ensures nombre == "" ==> r.resp.Failure? && r.resp.status == BadRequest
    ensures r.resp.Success? <==> nombre != "" && CategoryNamed(s.categories, nombre).None? && !Has(s.categories, newId)
    ensures r.resp.Success? ==>
              && r.resp.status == Created
              && r.resp.body.id == newId
              && r.resp.body.val.nombre == nombre
              && r.resp.body.val.descripcion == (if descripcion == "" then DefaultDescription else descripcion)
              && r.resp.body.val.descripcion != ""
              && r.resp.body.val.productos == []
              && r.store == s.(categories := s.categories + [r.resp.body])
    ensures Indexed(s) ==> Indexed(r.store)
  {
    if nombre == "" then Step(s, Failure(BadRequest, "El campo 'nombre' es obligatorio"))
    else if CategoryNamed(s.categories, nombre).Some? || Has(s.categories, newId) then
      Step(s, Failure(ServerError, "Error al crear la categoría: duplicate key"))
    else
      var d := Doc(newId, Category(nombre, if descripcion == "" then DefaultDescription else descripcion, []));
      assert Indexed(s) ==> Indexed(s.(categories := s.categories + [d])) by {
        if Indexed(s) {
          AppendKeepsIds(s.categories, newId, d.val);
          UniqueNamesAppend(s.categories, d);
        }
      }
      Step(s.(categories := s.categories + [d]), Success(Created, d))
  }

  /** `getById`: 404 for an unknown id. */
  function GetById(s: Store, id: Id): (r: Response<Category>)
    ensures r.Success? <==> Has(s.categories, id)
    ensures r.Failure? ==> r.status == NotFound
    ensures r.Success? ==> r.status == Ok && Some(r.body) == Get(s.categories, id)
  {
    match Get(s.categories, id)
    case Some(c) => Success(Ok, c)
    case None => Failure(NotFound, "Categoría no encontrada")
  }

  /** `getAll`: every category, in collection order. */
  function GetAll(s: Store): (r: Response<Table<Category>>)
    ensures r.Success? && r.status == Ok && r.body == s.categories
  {
    Success(Ok, s.categories)
  }

  /** A new category reads back by its id, and `getAll` lists it after all the others. */
  lemma CreateThenRead(s: Store, nombre: string, descripcion: string, newId: Id)
    requires Create(s, nombre, descripcion, newId).resp.Success?
    ensures var r := Create(s, nombre, descripcion, newId);
            && GetById(r.store, newId) == Success(Ok, r.resp.body.val)
            && GetAll(r.store) == Success(Ok, GetAll(s).body + [r.resp.body])
  {
    var r := Create(s, nombre, descripcion, newId);
    var t := r.store.categories;
    assert t[|s.categories|] == r.resp.body;
    assert IndexOf(t, newId) == Some(|s.categories|);
  }

  /** Set the provided (truthy) fields only. */
  function ApplyPatch(c: Category, nombre: string, descripcion: string): (r: Category)
    ensures r.nombre == (if nombre != "" then nombre else c.nombre)
    ensures r.descripcion == (if descripcion != "" then descripcion else c.descripcion)
    ensures r.productos == c.productos
  {
    c.(nombre := if nombre != "" then nombre else c.nombre,
       descripcion := if descripcion != "" then descripcion else c.descripcion)
  }

  /**
   `update`: 404 for an unknown id; a new name another category holds
   violates the unique index (500); otherwise only the provided fields change.
   */
  function Update(s: Store, id: Id, nombre: string, descripcion: string): (r: Step<Doc<Category>>)
    ensures r.resp.Failure? ==> r.store == s
    ensures !Has(s.categories, id) ==> r.resp.Failure? && r.resp.status == NotFound
    ensures (&& Has(s.categories, id) && nombre != ""
             && NameTakenByOther(s.categories, nombre, IndexOf(s.categories, id).value)) ==> r.resp.status == ServerError
    ensures r.resp.Success? <==> && Has(s.categories, id)
                                 && (nombre != "" ==> !NameTakenByOther(s.categories, nombre, IndexOf(s.categories, id).value))
    ensures r.resp.Success? ==>
              var i := IndexOf(s.categories, id).value;
              && r.resp.status == Ok
              && r.resp.body == Doc(id, ApplyPatch(s.categories[i].val, nombre, descripcion))
              && r.store == s.(categories := SetAt(s.categories, i, r.resp.body.val))
    ensures Indexed(s) ==> Indexed(r.store)
  {
    match IndexOf(s.categories, id)
    case None => Step(s, Failure(NotFound, "Categoría no encontrada"))
    case Some(i) =>
      if nombre != "" && NameTakenByOther(s.categories, nombre, i) then
        Step(s, Failure(ServerError, "Error al actualizar la categoría: duplicate key"))
      else
        var c := ApplyPatch(s.categories[i].val, nombre, descripcion);
        assert Indexed(s) ==> Indexed(s.(categories := SetAt(s.categories, i, c))) by {
          if Indexed(s) {
            if nombre == "" {
              assert forall j :: 0 <= j < |s.categories| && j != i ==> s.categories[j].val.nombre != c.nombre;
            }
            UniqueNamesSet(s.categories, i, c);
          }
        }
        Step(s.(categories := SetAt(s.categories, i, c)), Success(Ok, Doc(id, c)))
  }

  /** Updating twice with the same fields is updating once; no fields, no change. */
  lemma UpdateIdempotent(s: Store, id: Id, nombre: string, descripcion: string)
    requires DistinctIds(s.categories)
    requires Update(s, id, nombre, descripcion).resp.Success?
    ensures var s1 := Update(s, id, nombre, descripcion);
            Update(s1.store, id, nombre, descripcion) == s1
    ensures nombre == "" && descripcion == "" ==> Update(s, id, nombre, descripcion).store == s
  {
    var i := IndexOf(s.categories, id).value;
    var s1 := Update(s, id, nombre, descripcion);
    var t := s1.store.categories;
    assert IndexOf(t, id) == Some(i);
    if nombre != "" {
      assert !NameTakenByOther(t, nombre, i) by {
        forall j | 0 <= j < |t| && j != i ensures t[j].val.nombre != nombre {
          assert t[j] == s.categories[j];
        }
      }
    }
    assert SetAt(t, i, t[i].val) == t;
    if nombre == "" && descripcion == "" {
      assert SetAt(s.categories, i, s.categories[i].val) == s.categories;
    }
  }

  /** `delete`: 404 for an unknown id; the products that referenced it keep their `categoria`. */
  function Delete(s: Store, id: Id): (r: Step<()>)
    ensures r.resp.Failure? ==> r.store == s && r.resp.status == NotFound
    ensures r.resp.Success? <==> Has(s.categories, id)
    ensures r.resp.Success? ==> && r.store == s.(categories := RemoveAt(s.categories, IndexOf(s.categories, id).value))
                                && (DistinctIds(s.categories) ==> !Has(r.store.categories, id))
    ensures Indexed(s) ==> Indexed(r.store)
  {
    match IndexOf(s.categories, id)
    case None => Step(s, Failure(NotFound, "Categoría no encontrada"))
    case Some(i) =>
      assert DistinctIds(s.categories) ==> !Has(RemoveAt(s.categories, i), id) by {
        if DistinctIds(s.categories) { RemoveAtKeepsIds(s.categories, i); }
      }
      assert Indexed(s) ==> Indexed(s.(categories := RemoveAt(s.categories, i))) by {
        if Indexed(s) {
          RemoveAtKeepsIds(s.categories, i);
          UniqueNamesRemove(s.categories, i);
        }
      }
      Step(s.(categories := RemoveAt(s.categories, i)), Success(Ok, ()))
  }

  // ---------------------------------------------------------------------
  // Stats
  // ---------------------------------------------------------------------

  /** One row of `getCategoryStats`: `{ nombre, cantidadProductos }`. */
  datatype CategoryCount = CategoryCount(nombre: string, cantidadProductos: nat)

  /** Reference definition: how many product entries the categories list in all. */
  function Listed(cats: Table<Category>): nat {
    if |cats| == 0 then 0 else |cats[0].val.productos| + Listed(cats[1..])
  }

  function SumCounts(rows: seq<CategoryCount>): nat {
    if |rows| == 0 then 0 else rows[0].cantidadProductos + SumCounts(rows[1..])
  }

  /**
   `$match` on a non-empty `productos`, `$addFields` its `$size`, then
   `$project` name and count: one row per such category, in collection order.
   */
  function Stats(cats: Table<Category>): (r: seq<CategoryCount>)
    ensures |r| <= |cats|
    ensures forall k :: 0 <= k < |r| ==> r[k].cantidadProductos > 0
    ensures forall k :: 0 <= k < |r| ==>
              exists j :: 0 <= j < |cats| && r[k] == CategoryCount(cats[j].val.nombre, |cats[j].val.productos|)
    ensures forall j :: 0 <= j < |cats| && |cats[j].val.productos| > 0 ==>
              CategoryCount(cats[j].val.nombre, |cats[j].val.productos|) in r
  {
    if |cats| == 0 then []
    else
      var rest := Stats(cats[1..]);
      assert forall k :: 0 <= k < |rest| ==>
               exists j :: 0 <= j < |cats| && rest[k] == CategoryCount(cats[j].val.nombre, |cats[j].val.productos|) by {
        forall k | 0 <= k < |rest|
          ensures exists j :: 0 <= j < |cats| && rest[k] == CategoryCount(cats[j].val.nombre, |cats[j].val.productos|)
        {
          var j :| 0 <= j < |cats| - 1 && rest[k] == CategoryCount(cats[1..][j].val.nombre, |cats[1..][j].val.productos|);
          assert cats[1..][j] == cats[j + 1];
        }
      }
      assert forall j :: 1 <= j < |cats| && |cats[j].val.productos| > 0 ==>
               CategoryCount(cats[j].val.nombre, |cats[j].val.productos|) in rest by {
        forall j | 1 <= j < |cats| && |cats[j].val.productos| > 0
          ensures CategoryCount(cats[j].val.nombre, |cats[j].val.productos|) in rest
        {
          assert cats[1..][j - 1] == cats[j];
        }
      }
      if |cats[0].val.productos| > 0 then
        [CategoryCount(cats[0].val.nombre, |cats[0].val.productos|)] + rest
      else rest
  }

  /** The counts add up to every product entry the categories list. */
  lemma {:induction false} StatsCoverAll(cats: Table<Category>)
    ensures SumCounts(Stats(cats)) == Listed(cats)
  {
    if |cats| > 0 {
      StatsCoverAll(cats[1..]);
    }
  }

  /** A store of only empty categories has empty stats. */
  lemma {:induction false} StatsEmpty(cats: Table<Category>)
    ensures Stats(cats) == [] <==> forall j :: 0 <= j < |cats| ==> |cats[j].val.productos| == 0
  {
    if |cats| > 0 {
      StatsEmpty(cats[1..]);
      if |cats[0].val.productos| == 0 {
        forall j | 1 <= j < |cats| ensures cats[j] == cats[1..][j - 1] { }
      }
    }
  }

  /** Creating a category adds no row to the stats: it lists no products yet. */
  lemma CreateKeepsStats(s: Store, nombre: string, descripcion: string, newId: Id)
    requires Create(s, nombre, descripcion, newId).resp.Success?
    ensures Stats(Create(s, nombre, descripcion, newId).store.categories) == Stats(s.categories)
  {
    StatsAppendEmpty(s.categories, Create(s, nombre, descripcion, newId).resp.body);
  }

  lemma {:induction false} StatsAppendEmpty(cats: Table<Category>, d: Doc<Category>)
    requires |d.val.productos| == 0
    ensures Stats(cats + [d]) == Stats(cats)
  {
    if |cats| == 0 {
      assert cats + [d] == [d];
      assert [d][1..] == [];
    } else {
      assert (cats + [d])[1..] == cats[1..] + [d];
      StatsAppendEmpty(cats[1..], d);
    }
  }
}
