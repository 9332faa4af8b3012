/**
 The cart controller: create a user's single cart, merge products into it,
 read it back (owner-checked by id, unchecked by user), price it, delete it.
 */
module CartOps {
  import opened Values
  import opened Collection
  import opened Records
  import opened Auth
  import opened Pricing

  // ---------------------------------------------------------------------
  // Line-item merge
  // ---------------------------------------------------------------------

  /** The first line holding `product`: `cart.productos.find(p => p.product === productoId)`. */
  function LineIndex(lines: seq<LineItem>, product: Id): (r: Option<nat>)
    ensures r.Some? ==> r.value < |lines| && lines[r.value].product == product
    ensures r.Some? ==> forall j :: 0 <= j < r.value ==> lines[j].product != product
    ensures r.None? <==> forall j :: 0 <= j < |lines| ==> lines[j].product != product
  {
    FirstIndex(lines, (l: LineItem) => l.product == product)
  }

  /**
   Add `cantidad` units of `product`: the matching line's quantity grows by
   `cantidad`, or a new line is appended at the end. Nothing else changes.
   */
  function Merge(lines: seq<LineItem>, product: Id, cantidad: int): (r: seq<LineItem>)
    ensures LineIndex(lines, product).Some? ==>
              var i := LineIndex(lines, product).value;
              && |r| == |lines|
              && r[i] == LineItem(product, lines[i].cantidad + cantidad)
              && forall j :: 0 <= j < |lines| && j != i ==> r[j] == lines[j]
    ensures LineIndex(lines, product).None? ==> r == lines + [LineItem(product, cantidad)]
  {
    match LineIndex(lines, product)
    case Some(i) => lines[i := LineItem(product, lines[i].cantidad + cantidad)]
    case None => lines + [LineItem(product, cantidad)]
  }

  /** Reference definition: how many units of `product` the lines hold in all. */
  function Quantity(lines: seq<LineItem>, product: Id): int {
    if |lines| == 0 then 0
    else (if lines[0].product == product then lines[0].cantidad else 0) + Quantity(lines[1..], product)
  }

  /** At most one line per product id. */
  predicate UniqueProducts(lines: seq<LineItem>) {
    forall i, j :: 0 <= i < j < |lines| ==> lines[i].product != lines[j].product
  }

  lemma {:induction false} QuantityAppend(lines: seq<LineItem>, x: LineItem, product: Id)
    ensures Quantity(lines + [x], product) == Quantity(lines, product) + (if x.product == product then x.cantidad else 0)
    decreases |lines|
  {
    if |lines| > 0 {
      assert (lines + [x])[1..] == lines[1..] + [x];
      QuantityAppend(lines[1..], x, product);
    }
  }

  lemma {:induction false} QuantityUpdate(lines: seq<LineItem>, i: nat, x: LineItem, product: Id)
    requires i < |lines|
    ensures Quantity(lines[i := x], product)
         == Quantity(lines, product)
            - (if lines[i].product == product then lines[i].cantidad else 0)
            + (if x.product == product then x.cantidad else 0)
    decreases |lines|
  {
    if i > 0 {
      assert lines[i := x][1..] == lines[1..][i - 1 := x];
      QuantityUpdate(lines[1..], i - 1, x, product);
    } else {
      assert lines[i := x][1..] == lines[1..];
    }
  }

  /**
   The merge adds exactly `cantidad` units of `product` and leaves every other
   product's quantity as it was.
   */
  lemma MergeQuantity(lines: seq<LineItem>, product: Id, cantidad: int, other: Id)
    ensures Quantity(Merge(lines, product, cantidad), product) == Quantity(lines, product) + cantidad
    ensures other != product ==> Quantity(Merge(lines, product, cantidad), other) == Quantity(lines, other)
  {
    match LineIndex(lines, product)
    case Some(i) =>
      QuantityUpdate(lines, i, LineItem(product, lines[i].cantidad + cantidad), product);
      QuantityUpdate(lines, i, LineItem(product, lines[i].cantidad + cantidad), other);
    case None =>
      QuantityAppend(lines, LineItem(product, cantidad), product);
      QuantityAppend(lines, LineItem(product, cantidad), other);
  }

  /** A duplicate-free line list stays duplicate-free, and keeps its length exactly when the product was present. */
  lemma MergeKeepsUnique(lines: seq<LineItem>, product: Id, cantidad: int)
    requires UniqueProducts(lines)
    ensures UniqueProducts(Merge(lines, product, cantidad))
    ensures |Merge(lines, product, cantidad)| == |lines| <==> exists i :: 0 <= i < |lines| && lines[i].product == product
    ensures |Merge(lines, product, cantidad)| == |lines| + 1 <==> forall i :: 0 <= i < |lines| ==> lines[i].product != product
  {
  }

  /** Adding a product twice is adding the sum of the two quantities once. */
  lemma MergeTwice(lines: seq<LineItem>, product: Id, a: int, b: int)
    ensures Merge(Merge(lines, product, a), product, b) == Merge(lines, product, a + b)
  {
    var once := Merge(lines, product, a);
    match LineIndex(lines, product)
    case Some(i) =>
      assert LineIndex(once, product) == Some(i) by {
        assert forall j :: 0 <= j < i ==> once[j] == lines[j];
      }
    case None =>
      assert once == lines + [LineItem(product, a)];
      assert once[|lines|].product == product;
      assert forall j :: 0 <= j < |lines| ==> once[j].product != product;
      assert LineIndex(once, product) == Some(|lines|);
  }

  /** Merging a positive quantity keeps every line at quantity at least 1. */
  lemma MergeKeepsPositive(lines: seq<LineItem>, product: Id, cantidad: int)
    requires PositiveLines(lines) && cantidad >= 1
    ensures PositiveLines(Merge(lines, product, cantidad))
  {
  }

  /**
   The update's only quantity check is truthiness, so a negative quantity is
   merged as is: a new line below 1, or an existing line pushed below 1,
   breaks the schema's minimum.
   */
  lemma MergeNegativeBreaksMinimum(lines: seq<LineItem>, product: Id, cantidad: int)
    ensures LineIndex(lines, product).None? && cantidad < 1 ==> !PositiveLines(Merge(lines, product, cantidad))
    ensures (LineIndex(lines, product).Some? && lines[LineIndex(lines, product).value].cantidad + cantidad < 1) ==>
              !PositiveLines(Merge(lines, product, cantidad))
  {
    match LineIndex(lines, product)
    case None =>
      assert Merge(lines, product, cantidad)[|lines|].cantidad == cantidad;
    case Some(i) =>
      assert Merge(lines, product, cantidad)[i].cantidad == lines[i].cantidad + cantidad;
  }

  /** Reference amount after a merge: the cart's value grows by price × added quantity. */
  lemma MergeAmount(lines: seq<LineItem>, product: Id, cantidad: int, products: Table<Product>)
    requires AllPriced(lines, products) && Has(products, product)
    ensures AllPriced(Merge(lines, product, cantidad), products)
    ensures CartAmount(Merge(lines, product, cantidad), products)
         == CartAmount(lines, products) + PriceOf(products, product).value * cantidad
  {
    match LineIndex(lines, product)
    case Some(i) => MergeExistingAmount(lines, i, product, cantidad, products);
    case None => AmountAppend(lines, LineItem(product, cantidad), products);
  }

  /** The merge into an existing line changes the amount by that line's price × `cantidad`. */
  lemma MergeExistingAmount(lines: seq<LineItem>, i: nat, product: Id, cantidad: int, products: Table<Product>)
    requires AllPriced(lines, products) && LineIndex(lines, product) == Some(i)
    ensures AllPriced(Merge(lines, product, cantidad), products)
    ensures CartAmount(Merge(lines, product, cantidad), products)
         == CartAmount(lines, products) + PriceOf(products, product).value * cantidad
  {
    var x := LineItem(product, lines[i].cantidad + cantidad);
    MergeAt(lines, i, product, cantidad);
    AmountUpdate(lines, i, x, products);
  }

  /** The merge into the first line of `product` is a point update of that line. */
  lemma MergeAt(lines: seq<LineItem>, i: nat, product: Id, cantidad: int)
    requires LineIndex(lines, product) == Some(i)
    ensures Merge(lines, product, cantidad) == lines[i := LineItem(product, lines[i].cantidad + cantidad)]
  {
  }

  lemma {:induction false} AmountAppend(lines: seq<LineItem>, x: LineItem, products: Table<Product>)
    requires AllPriced(lines, products) && Has(products, x.product)
    ensures AllPriced(lines + [x], products)
    ensures CartAmount(lines + [x], products) == CartAmount(lines, products) + PriceOf(products, x.product).value * x.cantidad
    decreases |lines|
  {
    if |lines| > 0 {
      assert (lines + [x])[1..] == lines[1..] + [x];
      AmountAppend(lines[1..], x, products);
    }
  }

  lemma {:induction false} AmountUpdate(lines: seq<LineItem>, i: nat, x: LineItem, products: Table<Product>)
    requires i < |lines| && lines[i].product == x.product
    requires AllPriced(lines, products)
    ensures AllPriced(lines[i := x], products)
    ensures CartAmount(lines[i := x], products)
         == CartAmount(lines, products) + PriceOf(products, x.product).value * (x.cantidad - lines[i].cantidad)
    decreases |lines|
  {
    if i > 0 {
      assert lines[i := x][1..] == lines[1..][i - 1 := x];
      AmountUpdate(lines[1..], i - 1, x, products);
    } else {
      assert lines[i := x][1..] == lines[1..];
      var price := PriceOf(products, x.product).value;
      assert price * (x.cantidad - lines[i].cantidad) == price * x.cantidad - price * lines[i].cantidad;
    }
  }

  // ---------------------------------------------------------------------
  // Lookups and views
  // ---------------------------------------------------------------------

  /** `Cart.findOne({ usuario })`. */
  function CartOfUser(carts: Table<Cart>, usuario: Id): (r: Option<nat>)
    ensures r.Some? ==> r.value < |carts| && carts[r.value].val.usuario == usuario
    ensures r.None? <==> forall j :: 0 <= j < |carts| ==> carts[j].val.usuario != usuario
    ensures r.Some? && OneCartPerUser(carts) ==>
              forall j :: 0 <= j < |carts| && carts[j].val.usuario == usuario ==> j == r.value
  {
    FirstIndex(carts, (d: Doc<Cart>) => d.val.usuario == usuario)
  }

  /** A line as the read endpoints show it: the product's name and the quantity. */
  datatype NamedLine = NamedLine(nombre: string, cantidad: int)

  datatype CartView = CartView(id: Id, usuario: Id, productos: seq<NamedLine>)

  /** The populated name of a line's product; a deleted product makes `p.product.nombre` throw. */
  function NameLine(line: LineItem, products: Table<Product>): (r: Option<NamedLine>)
    ensures r.Some? <==> Has(products, line.product)
    ensures r.Some? ==> r.value == NamedLine(Get(products, line.product).value.nombre, line.cantidad)
  {
    match Get(products, line.product)
    case Some(p) => Some(NamedLine(p.nombre, line.cantidad))
    case None => None
  }

  /** The simplified cart of the read endpoints, or None when a product is gone (a 500). */
  function View(d: Doc<Cart>, products: Table<Product>): (r: Option<CartView>)
    ensures r.Some? <==> forall i :: 0 <= i < |d.val.productos| ==> Has(products, d.val.productos[i].product)
    ensures r.Some? ==> r.value.id == d.id && r.value.usuario == d.val.usuario
    ensures r.Some? ==> |r.value.productos| == |d.val.productos|
    ensures r.Some? ==> forall i :: 0 <= i < |d.val.productos| ==>
              r.value.productos[i] == NamedLine(Get(products, d.val.productos[i].product).value.nombre,
                                                d.val.productos[i].cantidad)
  {
    match MapAll(d.val.productos, (l: LineItem) => NameLine(l, products))
    case Some(lines) => Some(CartView(d.id, d.val.usuario, lines))
    case None => None
  }

  // ---------------------------------------------------------------------
  // Controller operations
  // ---------------------------------------------------------------------

  /** Removing a cart keeps at most one cart per user, and its owner then has none. */
  lemma RemoveAtKeepsOneCart(carts: Table<Cart>, i: nat)
    requires i < |carts| && OneCartPerUser(carts)
    ensures OneCartPerUser(RemoveAt(carts, i))
    ensures CartOfUser(RemoveAt(carts, i), carts[i].val.usuario).None?
  {
    var r := RemoveAt(carts, i);
    forall a, b | 0 <= a < b < |r|
      ensures r[a].val.usuario != r[b].val.usuario
    {
      var a0 := if a < i then a else a + 1;
      var b0 := if b < i then b else b + 1;
      assert r[a] == carts[a0] && r[b] == carts[b0];
    }
    forall a | 0 <= a < |r|
      ensures r[a].val.usuario != carts[i].val.usuario
    {
      var a0 := if a < i then a else a + 1;
      assert r[a] == carts[a0];
    }
  }

  /** Everything but the carts is left as it was. */
  predicate OnlyCartsChange(s: Store, s': Store) {
    s'.users == s.users && s'.products == s.products && s'.categories == s.categories
    && s'.reviews == s.reviews && s'.orders == s.orders
  }

  /**
   `create`: 400 without a user id, 404 for an unknown user, 400 when the user
   already has a cart; otherwise a new empty cart for that user under the
   id `newId` (an id already taken is a duplicate-key error, a 500).
   */
  function Create(s: Store, userId: Id, newId: Id): (r: Step<Doc<Cart>>)
    ensures r.resp.Failure? ==> r.store == s
    ensures userId == "" ==> r.resp.status == BadRequest
    ensures userId != "" && !Has(s.users, userId) ==> r.resp.status == NotFound
    ensures userId != "" && Has(s.users, userId) && CartOfUser(s.carts, userId).Some? ==> r.resp.status == BadRequest
    ensures r.resp.Success? <==> userId != "" && Has(s.users, userId) && CartOfUser(s.carts, userId).None?
                                 && !Has(s.carts, newId)
    ensures r.resp.Success? ==> && r.resp.status == Created
                                && r.resp.body == Doc(newId, Cart(userId, []))
                                && r.store.carts == s.carts + [r.resp.body]
                                && OnlyCartsChange(s, r.store)
    ensures Indexed(s) ==> Indexed(r.store)
  {
    if userId == "" then Step(s, Failure(BadRequest, "Faltan campos obligatorios"))
    else if !Has(s.users, userId) then Step(s, Failure(NotFound, "Usuario no encontrado"))
    else if CartOfUser(s.carts, userId).Some? then Step(s, Failure(BadRequest, "El usuario ya tiene un carrito creado"))
    else if Has(s.carts, newId) then Step(s, Failure(ServerError, "Error al crear el carrito: duplicate key"))
    else
      var doc := Doc(newId, Cart(userId, []));
      var s' := s.(carts := s.carts + [doc]);
      assert Indexed(s) ==> Indexed(s') by {
        if Indexed(s) { AppendKeepsIds(s.carts, newId, doc.val); }
      }
      Step(s', Success(Created, doc))
  }

  /**
   `update`: 400 when `productoId` or `cantidad` is falsy (so also for 0), 404
   for an unknown cart; otherwise the product is merged into that cart's lines
   and no other cart changes.
   */
  function Update(s: Store, cartId: Id, productoId: Id, cantidad: int): (r: Step<Doc<Cart>>)
    ensures r.resp.Failure? ==> r.store == s
    ensures productoId == "" || cantidad == 0 ==> r.resp.status == BadRequest
    ensures productoId != "" && cantidad != 0 && !Has(s.carts, cartId) ==> r.resp.status == NotFound
    ensures r.resp.Success? <==> productoId != "" && cantidad != 0 && Has(s.carts, cartId)
    ensures r.resp.Success? ==>
              var i := IndexOf(s.carts, cartId).value;
              && r.resp.status == Ok
              && r.resp.body == Doc(cartId, Cart(s.carts[i].val.usuario, Merge(s.carts[i].val.productos, productoId, cantidad)))
              && r.store.carts == SetAt(s.carts, i, r.resp.body.val)
              && OnlyCartsChange(s, r.store)
    ensures Indexed(s) ==> Indexed(r.store)
  {
    if productoId == "" || cantidad == 0 then
      Step(s, Failure(BadRequest, "Faltan campos obligatorios (productoId, cantidad)"))
    else
      match IndexOf(s.carts, cartId)
      case None => Step(s, Failure(NotFound, "Carrito no encontrado"))
      case Some(i) =>
        var cart := s.carts[i].val;
        var cart' := Cart(cart.usuario, Merge(cart.productos, productoId, cantidad));
        var s' := s.(carts := SetAt(s.carts, i, cart'));
        assert OneCartPerUser(s.carts) ==> OneCartPerUser(s'.carts) by {
          assert forall j :: 0 <= j < |s.carts| ==> s'.carts[j].val.usuario == s.carts[j].val.usuario;
        }
        Step(s', Success(Ok, Doc(cartId, cart')))
  }

  /**
   `delete`: 404 for an unknown cart, 403 unless the caller owns it (an admin
   gets no exception); otherwise that cart, and only it, is removed.
   */
  function Delete(s: Store, caller: Claims, cartId: Id): (r: Step<()>)
    ensures r.resp.Failure? ==> r.store == s
    ensures !Has(s.carts, cartId) ==> r.resp.status == NotFound
    ensures Has(s.carts, cartId) && !OwnsCart(caller, Get(s.carts, cartId).value) ==> r.resp.status == Forbidden
    ensures r.resp.Success? <==> Has(s.carts, cartId) && OwnsCart(caller, Get(s.carts, cartId).value)
    ensures r.resp.Success? ==> && r.store.carts == RemoveAt(s.carts, IndexOf(s.carts, cartId).value)
                                && OnlyCartsChange(s, r.store)
    ensures r.resp.Success? && Indexed(s) ==> !Has(r.store.carts, cartId)
    ensures Indexed(s) ==> Indexed(r.store)
  {
    match IndexOf(s.carts, cartId)
    case None => Step(s, Failure(NotFound, "Carrito no encontrado"))
    case Some(i) =>
      if !OwnsCart(caller, s.carts[i].val) then Step(s, Failure(Forbidden, "Acceso denegado"))
      else
        var s' := s.(carts := RemoveAt(s.carts, i));
        assert Indexed(s) ==> Indexed(s') && !Has(s'.carts, cartId) by {
          if Indexed(s) {
            RemoveAtKeepsIds(s.carts, i);
            RemoveAtKeepsOneCart(s.carts, i);
          }
        }
        Step(s', Success(Ok, ()))
  }

  /**
   `getById`: 404 for an unknown cart, 403 unless the caller owns it, 500 when
   a line's product no longer exists; otherwise the simplified cart.
   */
  function GetById(s: Store, caller: Claims, cartId: Id): (r: Response<CartView>)
    ensures !Has(s.carts, cartId) ==> r.status == NotFound
    ensures Has(s.carts, cartId) && !OwnsCart(caller, Get(s.carts, cartId).value) ==> r.status == Forbidden
    ensures (&& Has(s.carts, cartId) && OwnsCart(caller, Get(s.carts, cartId).value)
             && !AllPriced(Get(s.carts, cartId).value.productos, s.products)) ==> r.status == ServerError
    ensures r.Success? <==> && Has(s.carts, cartId) && OwnsCart(caller, Get(s.carts, cartId).value)
                            && AllPriced(Get(s.carts, cartId).value.productos, s.products)
    ensures r.Success? ==> && Has(s.carts, cartId) && OwnsCart(caller, Get(s.carts, cartId).value)
                           && r.body.id == cartId && r.body.usuario == caller.id
                           && r.status == Ok
    ensures r.Success? ==> Some(r.body) == View(Doc(cartId, Get(s.carts, cartId).value), s.products)
  {
    match IndexOf(s.carts, cartId)
    case None => Failure(NotFound, "Carrito no encontrado")
    case Some(i) =>
      if !OwnsCart(caller, s.carts[i].val) then Failure(Forbidden, "Acceso denegado")
      else
        match View(s.carts[i], s.products)
        case Some(v) => Success(Ok, v)
        case None => Failure(ServerError, "Error al obtener el carrito")
  }

  /** `getCartByUser`: the user's cart, simplified; 404 when the user has none. No ownership check. */
  function GetCartByUser(s: Store, userId: Id): (r: Response<CartView>)
    ensures CartOfUser(s.carts, userId).None? ==> r.status == NotFound
    ensures (CartOfUser(s.carts, userId).Some? &&
             !AllPriced(s.carts[CartOfUser(s.carts, userId).value].val.productos, s.products)) ==> r.status == ServerError
    ensures r.Success? <==> && CartOfUser(s.carts, userId).Some?
                            && AllPriced(s.carts[CartOfUser(s.carts, userId).value].val.productos, s.products)
    ensures r.Success? ==> r.status == Ok && r.body.usuario == userId
    ensures r.Success? ==> Some(r.body) == View(s.carts[CartOfUser(s.carts, userId).value], s.products)
  {
    match CartOfUser(s.carts, userId)
    case None => Failure(NotFound, "Carrito no encontrado")
    case Some(i) =>
      match View(s.carts[i], s.products)
      case Some(v) => Success(Ok, v)
      case None => Failure(ServerError, "Error al obtener el carrito del usuario")
  }

  /** `getAll`: every cart, simplified, in collection order; 500 if any line's product is gone. */
  function GetAll(s: Store): (r: Response<seq<CartView>>)
    ensures r.Success? <==> forall i :: 0 <= i < |s.carts| ==> View(s.carts[i], s.products).Some?
    ensures r.Failure? ==> r.status == ServerError
    ensures r.Success? ==> && r.status == Ok && |r.body| == |s.carts|
                           && forall i :: 0 <= i < |s.carts| ==> Some(r.body[i]) == View(s.carts[i], s.products)
  {
    match MapAll(s.carts, (d: Doc<Cart>) => View(d, s.products))
    case Some(vs) => Success(Ok, vs)
    case None => Failure(ServerError, "Error al obtener los carritos")
  }

  /**
   `getCartTotal`: the user's cart priced at current prices, each line with
   its unit price and subtotal, and the total; 404 when the user has no cart.
   */
  function GetCartTotal(s: Store, usuarioId: Id): (r: Response<CartTotalView>)
    ensures CartOfUser(s.carts, usuarioId).None? ==> r.status == NotFound
    ensures (CartOfUser(s.carts, usuarioId).Some? &&
             !AllPriced(s.carts[CartOfUser(s.carts, usuarioId).value].val.productos, s.products)) ==> r.status == ServerError
    ensures r.Success? <==> && CartOfUser(s.carts, usuarioId).Some?
                            && AllPriced(s.carts[CartOfUser(s.carts, usuarioId).value].val.productos, s.products)
    ensures r.Success? ==> && CartOfUser(s.carts, usuarioId).Some?
                           && var lines := s.carts[CartOfUser(s.carts, usuarioId).value].val.productos;
                           && AllPriced(lines, s.products)
                           && |r.body.productos| == |lines|
                           && (forall i :: 0 <= i < |lines| ==> PriceItem(lines[i], s.products) == Some(r.body.productos[i]))
                           && r.body.total == CartAmount(lines, s.products)
  {
    match CartOfUser(s.carts, usuarioId)
    case None => Failure(NotFound, "Carrito no encontrado")
    case Some(i) =>
      match CartTotal(s.carts[i].val.productos, s.products)
      case Some(v) =>
        CartTotalIsAmount(s.carts[i].val.productos, s.products);
        Success(Ok, v)
      case None => Failure(ServerError, "Error al calcular el total del carrito")
  }

  /**
   After an update, the cart's owner reads back the merged lines, named,
   provided every product of the cart, the added one included, still exists.
   */
  lemma UpdateThenGetById(s: Store, caller: Claims, cartId: Id, productoId: Id, cantidad: int)
    requires Update(s, cartId, productoId, cantidad).resp.Success?
    requires OwnsCart(caller, Get(s.carts, cartId).value)
    requires AllPriced(Get(s.carts, cartId).value.productos, s.products) && Has(s.products, productoId)
    ensures var u := Update(s, cartId, productoId, cantidad);
            && GetById(u.store, caller, cartId).Success?
            && Some(GetById(u.store, caller, cartId).body) == View(u.resp.body, s.products)
  {
    var u := Update(s, cartId, productoId, cantidad);
    var i := IndexOf(s.carts, cartId).value;
    assert IndexOf(u.store.carts, cartId) == Some(i) by {
      assert forall j :: 0 <= j < |s.carts| ==> u.store.carts[j].id == s.carts[j].id;
    }
    MergeAmount(s.carts[i].val.productos, productoId, cantidad, s.products);
    assert Get(u.store.carts, cartId).value == u.resp.body.val;
  }

  /** A new cart is listed last by `getAll`, empty; the listing fails exactly when it failed before. */
  lemma CreateThenGetAll(s: Store, userId: Id, newId: Id)
    requires Create(s, userId, newId).resp.Success?
    ensures GetAll(Create(s, userId, newId).store).Success? <==> GetAll(s).Success?
    ensures GetAll(s).Success? ==>
              GetAll(Create(s, userId, newId).store) == Success(Ok, GetAll(s).body + [CartView(newId, userId, [])])
  {
    var t := Create(s, userId, newId).store.carts;
    assert forall i :: 0 <= i < |s.carts| ==> t[i] == s.carts[i];
    assert View(t[|s.carts|], s.products) == Some(CartView(newId, userId, []));
    if GetAll(s).Success? {
      var a := GetAll(Create(s, userId, newId).store).body;
      var b := GetAll(s).body + [CartView(newId, userId, [])];
      forall i | 0 <= i < |a| ensures a[i] == b[i] {
        if i < |s.carts| {
          assert Some(a[i]) == View(t[i], s.products) == Some(b[i]);
        }
      }
      assert a == b;
    } else {
      var k :| 0 <= k < |s.carts| && View(s.carts[k], s.products).None?;
      assert View(t[k], s.products).None?;
    }
  }

  /** A freshly created cart is what the user's cart lookup then finds: empty, total 0. */
  lemma CreateThenRead(s: Store, userId: Id, newId: Id)
    requires Create(s, userId, newId).resp.Success?
    ensures GetCartByUser(Create(s, userId, newId).store, userId) == Success(Ok, CartView(newId, userId, []))
    ensures GetCartTotal(Create(s, userId, newId).store, userId) == Success(Ok, CartTotalView([], 0))
  {
    var s' := Create(s, userId, newId).store;
    assert s'.carts == s.carts + [Doc(newId, Cart(userId, []))];
    assert forall j :: 0 <= j < |s.carts| ==> s.carts[j].val.usuario != userId;
    assert s'.carts[|s.carts|].val.usuario == userId;
    assert CartOfUser(s'.carts, userId) == Some(|s.carts|);
  }
}
