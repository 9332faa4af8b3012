/**
 The product controller: admin-gated create, update and delete (with the
 review cascade), the price/brand filter, the unguarded stock update, and the
 top-10 products by review count.
 */
module ProductOps {
  import opened Values
  import opened Collection
  import opened Records
  import opened Auth

  /** The body of a create request. `reviews` is None when absent; any array is truthy. */
  datatype ProductInput = ProductInput(
    nombre: string,
    precio: Json,
    descripcion: string,
    stock: Json,
    marca: string,
    reviews: Option<seq<Id>>,
    categoria: Id)

  /** Everything but the products is left as it was. */
  predicate OnlyProductsChange(s: Store, s': Store) {
    s'.users == s.users && s'.categories == s.categories && s'.reviews == s.reviews
    && s'.carts == s.carts && s'.orders == s.orders
  }

  /** A number field that is present, numeric and not negative. */
  predicate NonNegativeNumber(v: Json) {
    !IsNaN(v) && ToNumber(v).value >= 0
  }

  /** The input checks of `create`, in order; None when they all pass. */
  function CreateChecks(req: ProductInput): (r: Option<Response<Doc<Product>>>)
    ensures r.Some? ==> r.value.Failure? && r.value.status == BadRequest
    ensures r.None? <==> && req.nombre != "" && Truthy(req.precio) && Truthy(req.stock) && req.marca != ""
                         && NonNegativeNumber(req.precio) && NonNegativeNumber(req.stock)
  {
    if req.nombre == "" || !Truthy(req.precio) || !Truthy(req.stock) || req.marca == "" then
      Some(Failure(BadRequest, "Faltan datos obligatorios"))
    else if IsNaN(req.precio) || IsNaN(req.stock) then
      Some(Failure(BadRequest, "Precio y Stock deben ser numeros"))
    else if ToNumber(req.precio).value < 0 || ToNumber(req.stock).value < 0 then
      Some(Failure(BadRequest, "Precio y Stock deben ser mayores o iguales a 0"))
    else None
  }

  /**
   `create` as written: 401/403 from the admin gate, then 400 for a falsy
   name, price, stock or brand (so a numeric price or stock of 0 is refused),
   a non-numeric or a negative price or stock. The defaults for a missing
   description, reviews or category are assigned to `const` bindings, which
   throws: without all three the request ends in a 500.
   */
  function Create(s: Store, h: AuthHeader, req: ProductInput, newId: Id): (r: Step<Doc<Product>>)
    ensures r.resp.Failure? ==> r.store == s
    ensures CreateGate(h).Failure? ==> r.resp.Failure? && r.resp.status == CreateGate(h).status
    ensures CreateGate(h).Success? && CreateChecks(req).Some? ==> r.resp.status == BadRequest
    ensures r.resp.Success? <==> && CreateGate(h).Success? && CreateChecks(req).None?
                                 && req.descripcion != "" && req.reviews.Some? && req.categoria != ""
                                 && !Has(s.products, newId)
    ensures r.resp.Success? ==>
              && r.resp.status == Created
              && r.resp.body == Doc(newId, Product(req.nombre, ToNumber(req.precio).value, req.descripcion,
                                                   Some(req.categoria), req.marca, ToNumber(req.stock).value,
                                                   req.reviews.value))
              && r.store == s.(products := s.products + [r.resp.body])
    ensures DistinctIds(s.products) ==> DistinctIds(r.store.products)
    ensures Indexed(s) ==> Indexed(r.store)
  {
    match CreateGate(h)
    case Failure(st, msg) => Step(s, Failure(st, msg))
    case Success(_, _) =>
      match CreateChecks(req)
      case Some(err) => Step(s, err)
      case None =>
        if req.descripcion == "" || req.reviews.None? || req.categoria == "" then
          Step(s, Failure(ServerError, "Error creating product: Assignment to constant variable."))
        else Insert(s, newId, Product(req.nombre, ToNumber(req.precio).value, req.descripcion,
                                      Some(req.categoria), req.marca, ToNumber(req.stock).value, req.reviews.value))
  }

  /** Store a new product under `newId`; a taken id is a duplicate-key 500. */
  function Insert(s: Store, newId: Id, p: Product): (r: Step<Doc<Product>>)
    ensures r.resp.Failure? <==> Has(s.products, newId)
    ensures r.resp.Failure? ==> r.store == s && r.resp.status == ServerError
    ensures r.resp.Success? ==> && r.resp == Success(Created, Doc(newId, p))
                                && r.store == s.(products := s.products + [Doc(newId, p)])
    ensures DistinctIds(s.products) ==> DistinctIds(r.store.products)
    ensures Indexed(s) ==> Indexed(r.store)
  {
    if Has(s.products, newId) then Step(s, Failure(ServerError, "Error creating product: duplicate key"))
    else
      assert DistinctIds(s.products) ==> DistinctIds(s.products + [Doc(newId, p)]) by {
        if DistinctIds(s.products) { AppendKeepsIds(s.products, newId, p); }
      }
      Step(s.(products := s.products + [Doc(newId, p)]), Success(Created, Doc(newId, p)))
  }

  /**
   An admin creating a product with every mandatory field but no description
   gets a 500, and no product is stored.
   */
  lemma CreateWithoutDescriptionFails(s: Store, c: Claims, newId: Id)
    requires IsAdmin(c)
    ensures var r := Create(s, Bearer(Decoded(c)), ProductInput("Mate", Num(1999), "", Num(5), "Acme", Some([]), "cat"), newId);
            r.resp.status == ServerError && r.store == s
  {
  }

  /**
   `create` as its author evidently meant it: the same gate and checks, then
   "Sin descripción", no reviews and no category stand in for missing fields.
   */
  function CreateWithDefaults(s: Store, h: AuthHeader, req: ProductInput, newId: Id): (r: Step<Doc<Product>>)
    ensures r.resp.Failure? ==> r.store == s
    ensures r.resp.Success? <==> CreateGate(h).Success? && CreateChecks(req).None? && !Has(s.products, newId)
    ensures r.resp.Success? ==>
              var p := r.resp.body.val;
              && r.resp.body.id == newId
              && p.nombre == req.nombre && p.marca == req.marca
              && p.precio == ToNumber(req.precio).value && p.stock == ToNumber(req.stock).value
              && p.precio >= 0 && p.stock >= 0
              && p.descripcion == (if req.descripcion == "" then "Sin descripción" else req.descripcion)
              && p.reviews == req.reviews.GetOr([])
              && p.categoria == (if req.categoria == "" then None else Some(req.categoria))
              && r.store == s.(products := s.products + [r.resp.body])
    ensures Indexed(s) ==> Indexed(r.store)
  {
    match CreateGate(h)
    case Failure(st, msg) => Step(s, Failure(st, msg))
    case Success(_, _) =>
      match CreateChecks(req)
      case Some(err) => Step(s, err)
      case None =>
        var descripcion := if req.descripcion == "" then "Sin descripción" else req.descripcion;
        var categoria := if req.categoria == "" then None else Some(req.categoria);
        Insert(s, newId, Product(req.nombre, ToNumber(req.precio).value, descripcion, categoria,
                                 req.marca, ToNumber(req.stock).value, req.reviews.GetOr([])))
  }

  /** `getById`: 404 for an unknown id. */
  function GetById(s: Store, id: Id): (r: Response<Product>)
    ensures r.Success? <==> Has(s.products, id)
    ensures r.Failure? ==> r.status == NotFound
    ensures r.Success? ==> r.status == Ok && Some(r.body) == Get(s.products, id)
  {
    match Get(s.products, id)
    case Some(p) => Success(Ok, p)
    case None => Failure(NotFound, "Product not found")
  }

  /** A product created with defaults reads back with the price and stock it was given. */
  lemma CreateThenGet(s: Store, h: AuthHeader, req: ProductInput, newId: Id)
    requires DistinctIds(s.products)
    requires CreateWithDefaults(s, h, req, newId).resp.Success?
    ensures var g := GetById(CreateWithDefaults(s, h, req, newId).store, newId);
            && g.Success?
            && g.body.precio == ToNumber(req.precio).value
            && g.body.stock == ToNumber(req.stock).value
  {
    var r := CreateWithDefaults(s, h, req, newId);
    var t := r.store.products;
    assert t == s.products + [r.resp.body];
    AppendKeepsIds(s.products, newId, r.resp.body.val);
    assert t[|s.products|] == Doc(newId, r.resp.body.val);
    assert IndexOf(t, newId) == Some(|s.products|);
  }

  // ---------------------------------------------------------------------
  // Update
  // ---------------------------------------------------------------------

  /** The body of an update request. */
  datatype ProductPatch = ProductPatch(
    nombre: string,
    precio: Json,
    descripcion: string,
    stock: Json,
    marca: string,
    categoria: Id)

  /** `$set` of the truthy fields only. */
  function ApplyPatch(p: Product, u: ProductPatch): (r: Product)
    requires Truthy(u.precio) ==> !IsNaN(u.precio)
    requires Truthy(u.stock) ==> !IsNaN(u.stock)
    ensures r.nombre == (if u.nombre != "" then u.nombre else p.nombre)
    ensures r.precio == (if Truthy(u.precio) then ToNumber(u.precio).value else p.precio)
    ensures r.descripcion == (if u.descripcion != "" then u.descripcion else p.descripcion)
    ensures r.stock == (if Truthy(u.stock) then ToNumber(u.stock).value else p.stock)
    ensures r.marca == (if u.marca != "" then u.marca else p.marca)
    ensures r.categoria == (if u.categoria != "" then Some(u.categoria) else p.categoria)
    ensures r.reviews == p.reviews
  {
    Product(
      if u.nombre != "" then u.nombre else p.nombre,
      if Truthy(u.precio) then ToNumber(u.precio).value else p.precio,
      if u.descripcion != "" then u.descripcion else p.descripcion,
      if u.categoria != "" then Some(u.categoria) else p.categoria,
      if u.marca != "" then u.marca else p.marca,
      if Truthy(u.stock) then ToNumber(u.stock).value else p.stock,
      p.reviews)
  }

  /** Applying the same patch twice is applying it once; an all-falsy patch changes nothing. */
  lemma PatchIdempotent(p: Product, u: ProductPatch)
    requires Truthy(u.precio) ==> !IsNaN(u.precio)
    requires Truthy(u.stock) ==> !IsNaN(u.stock)
    ensures ApplyPatch(ApplyPatch(p, u), u) == ApplyPatch(p, u)
    ensures (&& u.nombre == "" && !Truthy(u.precio) && u.descripcion == "" && !Truthy(u.stock)
             && u.marca == "" && u.categoria == "") ==> ApplyPatch(p, u) == p
  {
  }

  /**
   `update`: every refusal of the admin gate is a 403. A truthy price or stock
   that is non-numeric or negative is a 400, before the product is looked up;
   then 404 for an unknown id. Otherwise exactly the truthy fields are set on
   that product and nothing else changes.
   */
  function Update(s: Store, h: AuthHeader, id: Id, u: ProductPatch): (r: Step<Doc<Product>>)
    ensures r.resp.Failure? ==> r.store == s
    ensures EditGate(h).Failure? ==> r.resp.status == Forbidden
    ensures EditGate(h).Success? && Truthy(u.precio) && !NonNegativeNumber(u.precio) ==> r.resp.status == BadRequest
    ensures (&& EditGate(h).Success? && (Truthy(u.precio) ==> NonNegativeNumber(u.precio))
             && Truthy(u.stock) && !NonNegativeNumber(u.stock)) ==> r.resp.status == BadRequest
    ensures (&& EditGate(h).Success? && (Truthy(u.precio) ==> NonNegativeNumber(u.precio))
             && (Truthy(u.stock) ==> NonNegativeNumber(u.stock)) && !Has(s.products, id)) ==> r.resp.status == NotFound
    ensures r.resp.Success? <==> && EditGate(h).Success?
                                 && (Truthy(u.precio) ==> NonNegativeNumber(u.precio))
                                 && (Truthy(u.stock) ==> NonNegativeNumber(u.stock))
                                 && Has(s.products, id)
    ensures r.resp.Success? ==>
              var i := IndexOf(s.products, id).value;
              && r.resp.status == Ok
              && r.resp.body == Doc(id, ApplyPatch(s.products[i].val, u))
              && r.store == s.(products := SetAt(s.products, i, r.resp.body.val))
    ensures DistinctIds(s.products) ==> DistinctIds(r.store.products)
    ensures Indexed(s) ==> Indexed(r.store)
  {
    match EditGate(h)
    case Failure(st, msg) => Step(s, Failure(st, msg))
    case Success(_, _) =>
      if Truthy(u.precio) && !NonNegativeNumber(u.precio) then
        Step(s, Failure(BadRequest, "Precio debe ser un número mayor o igual a 0"))
      else if Truthy(u.stock) && !NonNegativeNumber(u.stock) then
        Step(s, Failure(BadRequest, "Stock debe ser un número mayor o igual a 0"))
      else
        match IndexOf(s.products, id)
        case None => Step(s, Failure(NotFound, "Product not found"))
        case Some(i) =>
          var p := ApplyPatch(s.products[i].val, u);
          Step(s.(products := SetAt(s.products, i, p)), Success(Ok, Doc(id, p)))
  }

  // ---------------------------------------------------------------------
  // Delete, filter, stock
  // ---------------------------------------------------------------------

  /**
   `delete`: every refusal of the admin gate is a 403 and changes nothing.
   Otherwise the reviews of the product are deleted first, whether or not the
   product exists; then the product is removed, or the answer is 404.
   */
  function Delete(s: Store, h: AuthHeader, id: Id): (r: Step<()>)
    ensures EditGate(h).Failure? ==> r.store == s && r.resp.status == Forbidden
    ensures EditGate(h).Success? ==>
              && r.store.reviews == Where(s.reviews, (d: Doc<Review>) => d.val.producto != id)
              && r.store.users == s.users && r.store.categories == s.categories
              && r.store.carts == s.carts && r.store.orders == s.orders
    ensures EditGate(h).Success? ==> forall i :: 0 <= i < |r.store.reviews| ==> r.store.reviews[i].val.producto != id
    ensures EditGate(h).Success? ==>
              forall i :: 0 <= i < |s.reviews| && s.reviews[i].val.producto != id ==> s.reviews[i] in r.store.reviews
    ensures EditGate(h).Success? && !Has(s.products, id) ==> r.resp.status == NotFound && r.store.products == s.products
    ensures r.resp.Success? <==> EditGate(h).Success? && Has(s.products, id)
    ensures r.resp.Success? ==> r.store.products == RemoveAt(s.products, IndexOf(s.products, id).value)
    ensures r.resp.Success? && DistinctIds(s.products) ==> !Has(r.store.products, id)
    ensures DistinctIds(s.products) && DistinctIds(s.reviews) ==>
              DistinctIds(r.store.products) && DistinctIds(r.store.reviews)
    ensures Indexed(s) ==> Indexed(r.store)
  {
    match EditGate(h)
    case Failure(st, msg) => Step(s, Failure(st, msg))
    case Success(_, _) =>
      var kept := Where(s.reviews, (d: Doc<Review>) => d.val.producto != id);
      assert DistinctIds(s.reviews) ==> DistinctIds(kept) by {
        if DistinctIds(s.reviews) { WhereKeepsIds(s.reviews, (d: Doc<Review>) => d.val.producto != id); }
      }
      var s1 := s.(reviews := kept);
      match IndexOf(s.products, id)
      case None => Step(s1, Failure(NotFound, "Product not found"))
      case Some(i) =>
        assert DistinctIds(s.products) ==> DistinctIds(RemoveAt(s.products, i)) && !Has(RemoveAt(s.products, i), id) by {
          if DistinctIds(s.products) { RemoveAtKeepsIds(s.products, i); }
        }
        Step(s1.(products := RemoveAt(s.products, i)), Success(Ok, ()))
  }

  /** The filter document: `precio` within both bounds, and the brand when one is given. */
  predicate Matches(p: Product, lo: int, hi: int, marca: string) {
    lo <= p.precio <= hi && (marca != "" ==> p.marca == marca)
  }

  /**
   `filterProducts`: both bounds are required (400 otherwise). A bound that
   `Number()` turns into NaN fails the store's cast of the query, a 500.
   Otherwise the answer is exactly the products priced within the bounds and,
   when a brand is given, of that brand, in collection order.
   */
  function Filter(s: Store, precioMin: string, precioMax: string, marca: string): (r: Response<seq<Doc<Product>>>)
    ensures precioMin == "" || precioMax == "" ==> r.Failure? && r.status == BadRequest
    ensures (&& precioMin != "" && precioMax != ""
             && (ParseNumber(precioMin).None? || ParseNumber(precioMax).None?)) ==> r.Failure? && r.status == ServerError
    ensures r.Success? <==> && precioMin != "" && precioMax != ""
                            && ParseNumber(precioMin).Some? && ParseNumber(precioMax).Some?
    ensures r.Success? ==> r.status == Ok && Subsequence(r.body, s.products)
    ensures r.Success? ==> forall i :: 0 <= i < |r.body| ==>
              r.body[i] in s.products
              && Matches(r.body[i].val, ParseNumber(precioMin).value, ParseNumber(precioMax).value, marca)
    ensures r.Success? ==> forall i :: 0 <= i < |s.products| ==>
              Matches(s.products[i].val, ParseNumber(precioMin).value, ParseNumber(precioMax).value, marca)
              ==> s.products[i] in r.body
  {
    if precioMin == "" then Failure(BadRequest, "precioMin must be a number")
    else if precioMax == "" then Failure(BadRequest, "precioMax must be a number")
    else
      match (ParseNumber(precioMin), ParseNumber(precioMax))
      case (Some(lo), Some(hi)) =>
        WhereSubsequence(s.products, (d: Doc<Product>) => Matches(d.val, lo, hi, marca));
        Success(Ok, Where(s.products, (d: Doc<Product>) => Matches(d.val, lo, hi, marca)))
      case _ =>
        Failure(ServerError, "Error filtering products: Cast to Number failed for value \"NaN\" at path \"precio\"")
  }

  /** Widening the price range or dropping the brand never loses a product. */
  lemma FilterMonotone(s: Store, lo: string, hi: string, lo': string, hi': string, marca: string, d: Doc<Product>)
    requires lo != "" && hi != "" && lo' != "" && hi' != ""
    requires ParseNumber(lo).Some? && ParseNumber(hi).Some? && ParseNumber(lo').Some? && ParseNumber(hi').Some?
    requires ParseNumber(lo').value <= ParseNumber(lo).value && ParseNumber(hi).value <= ParseNumber(hi').value
    requires d in Filter(s, lo, hi, marca).body
    ensures d in Filter(s, lo', hi', marca).body
    ensures d in Filter(s, lo', hi', "").body
  {
    var k :| 0 <= k < |Filter(s, lo, hi, marca).body| && Filter(s, lo, hi, marca).body[k] == d;
    var j :| 0 <= j < |s.products| && s.products[j] == d;
  }

  /**
   `updateStock`: no authentication. A missing or null stock, or one that is
   not a number, is a 400; an unknown id a 404. Otherwise only that product's
   stock changes, and a negative stock is accepted.
   */
  function UpdateStock(s: Store, id: Id, stock: Json): (r: Step<Doc<Product>>)
    ensures r.resp.Failure? ==> r.store == s
    ensures stock.Undefined? || stock.Null? || IsNaN(stock) ==> r.resp.status == BadRequest
    ensures r.resp.Success? <==> !stock.Undefined? && !stock.Null? && !IsNaN(stock) && Has(s.products, id)
    ensures r.resp.Success? ==>
              var i := IndexOf(s.products, id).value;
              && r.resp.status == Ok
              && r.resp.body == Doc(id, s.products[i].val.(stock := ToNumber(stock).value))
              && r.store == s.(products := SetAt(s.products, i, r.resp.body.val))
    ensures DistinctIds(s.products) ==> DistinctIds(r.store.products)
    ensures Indexed(s) ==> Indexed(r.store)
  {
    if stock.Undefined? || stock.Null? || IsNaN(stock) then Step(s, Failure(BadRequest, "Error in updating stock"))
    else
      match IndexOf(s.products, id)
      case None => Step(s, Failure(NotFound, "Error in updating stock"))
      case Some(i) =>
        var p := s.products[i].val.(stock := ToNumber(stock).value);
        Step(s.(products := SetAt(s.products, i, p)), Success(Ok, Doc(id, p)))
  }

  // ---------------------------------------------------------------------
  // Top products by review count
  // ---------------------------------------------------------------------

  function Reviews(d: Doc<Product>): nat {
    |d.val.reviews|
  }

  /** `$match: { reviews: { $exists: true, $ne: [] } }`. */
  predicate Reviewed(d: Doc<Product>) {
    |d.val.reviews| > 0
  }

  /** Non-increasing review count. */
  predicate SortedByReviews(r: seq<Doc<Product>>) {
    forall i, j :: 0 <= i < j < |r| ==> Reviews(r[i]) >= Reviews(r[j])
  }

  /** Insert `d` after every document with at least as many reviews. */
  function InsertByReviews(d: Doc<Product>, r: seq<Doc<Product>>): (out: seq<Doc<Product>>)
    ensures multiset(out) == multiset(r) + multiset{d}
    ensures |out| == |r| + 1
  {
    if |r| == 0 then [d]
    else if Reviews(r[0]) >= Reviews(d) then
      assert r == [r[0]] + r[1..];
      [r[0]] + InsertByReviews(d, r[1..])
    else [d] + r
  }

  /** Insertion keeps the order. */
  lemma {:induction false} InsertKeepsOrder(d: Doc<Product>, r: seq<Doc<Product>>)
    requires SortedByReviews(r)
    ensures SortedByReviews(InsertByReviews(d, r))
  {
    if |r| > 0 && Reviews(r[0]) >= Reviews(d) {
      SortedTail(r);
      InsertKeepsOrder(d, r[1..]);
      InsertBounded(d, r[1..], Reviews(r[0]));
      SortedCons(r[0], InsertByReviews(d, r[1..]));
    } else if |r| > 0 {
      SortedTail(r);
      SortedCons(d, r);
    }
  }

  /** The rest of a sorted list is sorted, and nothing in it outranks the head. */
  lemma SortedTail(r: seq<Doc<Product>>)
    requires SortedByReviews(r) && |r| > 0
    ensures SortedByReviews(r[1..])
    ensures forall k :: 0 <= k < |r| ==> Reviews(r[k]) <= Reviews(r[0])
  {
    forall i, j | 0 <= i < j < |r| - 1 ensures Reviews(r[1..][i]) >= Reviews(r[1..][j]) {
      assert r[1..][i] == r[i + 1] && r[1..][j] == r[j + 1];
    }
  }

  /** A document that outranks every document of a sorted list can go in front of it. */
  lemma SortedCons(x: Doc<Product>, rest: seq<Doc<Product>>)
    requires SortedByReviews(rest)
    requires forall j :: 0 <= j < |rest| ==> Reviews(rest[j]) <= Reviews(x)
    ensures SortedByReviews([x] + rest)
  {
    var out := [x] + rest;
    forall i, j | 0 <= i < j < |out| ensures Reviews(out[i]) >= Reviews(out[j]) {
      assert out[j] == rest[j - 1];
      if i > 0 {
        assert out[i] == rest[i - 1];
      }
    }
  }

  /** Inserting keeps every document within a bound that all of them already meet. */
  lemma InsertBounded(d: Doc<Product>, r: seq<Doc<Product>>, bound: int)
    requires Reviews(d) <= bound
    requires forall k :: 0 <= k < |r| ==> Reviews(r[k]) <= bound
    ensures forall j :: 0 <= j < |InsertByReviews(d, r)| ==> Reviews(InsertByReviews(d, r)[j]) <= bound
  {
    var out := InsertByReviews(d, r);
    forall j | 0 <= j < |out| ensures Reviews(out[j]) <= bound {
      assert out[j] in multiset(out);
      if out[j] != d {
        assert out[j] in multiset(r);
        var k :| 0 <= k < |r| && r[k] == out[j];
      }
    }
  }

  /** `$sort: { cantidadReseñas: -1 }`, here by insertion (ties keep collection order). */
  function SortByReviews(xs: seq<Doc<Product>>): (r: seq<Doc<Product>>)
    ensures multiset(r) == multiset(xs)
    ensures |r| == |xs|
  {
    if |xs| == 0 then []
    else
      assert xs == [xs[0]] + xs[1..];
      InsertByReviews(xs[0], SortByReviews(xs[1..]))
  }

  /** The sort orders by review count. */
  lemma {:induction false} SortOrders(xs: seq<Doc<Product>>)
    ensures SortedByReviews(SortByReviews(xs))
  {
    if |xs| > 0 {
      SortOrders(xs[1..]);
      InsertKeepsOrder(xs[0], SortByReviews(xs[1..]));
    }
  }

  /** In a sorted list, whatever lies beyond the first `n` ranks no higher than those `n`. */
  lemma PrefixDominates(sorted: seq<Doc<Product>>, n: nat, x: Doc<Product>)
    requires SortedByReviews(sorted) && n <= |sorted|
    requires x in sorted && x !in sorted[..n]
    ensures forall i :: 0 <= i < n ==> Reviews(x) <= Reviews(sorted[i])
  {
    var m :| 0 <= m < |sorted| && sorted[m] == x;
  }

  const TopLimit: nat := 10

  /** The answer of `getTopProducts`: reviewed products, most reviews first, at most 10. */
  function Top(s: Store): (r: seq<Doc<Product>>)
    ensures |r| == if |Where(s.products, Reviewed)| < TopLimit then |Where(s.products, Reviewed)| else TopLimit
    ensures multiset(r) <= multiset(Where(s.products, Reviewed))
  {
    var sorted := SortByReviews(Where(s.products, Reviewed));
    var n := if |sorted| < TopLimit then |sorted| else TopLimit;
    assert sorted == sorted[..n] + sorted[n..];
    sorted[..n]
  }

  /** Every listed product is a reviewed product of the store. */
  lemma TopFromStore(s: Store)
    ensures forall i :: 0 <= i < |Top(s)| ==> Top(s)[i] in s.products && Reviewed(Top(s)[i])
  {
    var eligible := Where(s.products, Reviewed);
    var r := Top(s);
    forall i | 0 <= i < |r| ensures r[i] in s.products && Reviewed(r[i]) {
      assert r[i] in multiset(eligible);
    }
  }

  /** The listed products come most reviews first. */
  lemma TopSorted(s: Store)
    ensures SortedByReviews(Top(s))
  {
    var sorted := SortByReviews(Where(s.products, Reviewed));
    SortOrders(Where(s.products, Reviewed));
    assert Top(s) == sorted[..|Top(s)|];
  }

  /**
   Every reviewed product left out has no more reviews than any listed one.
   Which of several equally reviewed products make the cut is the store's
   choice; this model keeps collection order.
   */
  lemma TopDominates(s: Store, k: nat)
    requires k < |s.products| && Reviewed(s.products[k]) && s.products[k] !in Top(s)
    ensures forall i :: 0 <= i < |Top(s)| ==> Reviews(s.products[k]) <= Reviews(Top(s)[i])
  {
    var eligible := Where(s.products, Reviewed);
    var sorted := SortByReviews(eligible);
    SortOrders(eligible);
    var r := Top(s);
    assert r == sorted[..|r|];
    assert s.products[k] in multiset(sorted);
    PrefixDominates(sorted, |r|, s.products[k]);
  }
}
