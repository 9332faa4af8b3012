/**
 The order controller: turn a user's cart into an order, change an order's
 state, read and delete orders, count them by state and list a user's orders.
 */
module OrderOps {
  import opened Values
  import opened Collection
  import opened Records
  import opened Pricing
  import CartOps

  /** A cart line as an order line: `{ producto: p.product._id, cantidad: p.cantidad }`. */
  function ConvertLines(lines: seq<LineItem>): (r: seq<OrderLine>)
    ensures |r| == |lines|
    ensures forall i :: 0 <= i < |lines| ==>
              r[i].producto == lines[i].product && r[i].cantidad == lines[i].cantidad && r[i].subtotal.None?
  {
    seq(|lines|, i requires 0 <= i < |lines| => OrderLine(lines[i].product, lines[i].cantidad, None))
  }

  /**
   The schema checks made when the order is saved: a payment method, and on
   every line a quantity of at least 1 and a subtotal.
   */
  predicate Validates(o: Order) {
    && o.metodoPago != ""
    && forall i :: 0 <= i < |o.productos| ==> o.productos[i].cantidad >= 1 && o.productos[i].subtotal.Some?
  }

  /** Everything but the carts and the orders is left as it was. */
  predicate OnlyCartsAndOrdersChange(s: Store, s': Store) {
    s'.users == s.users && s'.products == s.products && s'.categories == s.categories && s'.reviews == s.reviews
  }

  /** Both line lists name the same products with the same quantities, position by position. */
  predicate SameLines(cart: seq<LineItem>, order: seq<OrderLine>) {
    |order| == |cart| &&
    forall i :: 0 <= i < |cart| ==> order[i].producto == cart[i].product && order[i].cantidad == cart[i].cantidad
  }

  /**
   A non-empty cart of the user whose products all still exist, with quantities
   of at least 1, a payment method and a free order id: exactly what a checkout
   needs to succeed.
   */
  predicate CanCheckOut(s: Store, userId: Id, metodoPago: string, newId: Id) {
    && CartOps.CartOfUser(s.carts, userId).Some?
    && var lines := s.carts[CartOps.CartOfUser(s.carts, userId).value].val.productos;
    && |lines| > 0 && AllPriced(lines, s.products) && PositiveLines(lines)
    && metodoPago != "" && !Has(s.orders, newId)
  }

  /**
   `create`: 404 when the user has no cart, 400 when it is empty. Otherwise the
   cart's lines become the order's lines, in order; saving prices them at
   current prices and sets the total, and only once the order is stored is the
   cart deleted. A failed save (missing product, no payment method, a line
   below quantity 1, or a taken id) is a 500 that leaves the cart in place.
   The pricing hook runs before the schema checks, as the hook's author
   evidently expected (see `CreateAsWritten`).
   */
  function Create(s: Store, userId: Id, metodoPago: string, newId: Id): (r: Step<Doc<Order>>)
    ensures r.resp.Failure? ==> r.store == s
    ensures CartOps.CartOfUser(s.carts, userId).None? ==> r.resp.status == NotFound
    ensures (CartOps.CartOfUser(s.carts, userId).Some? &&
             |s.carts[CartOps.CartOfUser(s.carts, userId).value].val.productos| == 0) ==> r.resp.status == BadRequest
    ensures (&& CartOps.CartOfUser(s.carts, userId).Some?
             && |s.carts[CartOps.CartOfUser(s.carts, userId).value].val.productos| > 0
             && !CanCheckOut(s, userId, metodoPago, newId)) ==> r.resp.status == ServerError
    ensures r.resp.Success? <==> CanCheckOut(s, userId, metodoPago, newId)
    ensures r.resp.Success? ==> CartOps.CartOfUser(s.carts, userId).Some?
    ensures r.resp.Success? && CartOps.CartOfUser(s.carts, userId).Some? ==>
              var ci := CartOps.CartOfUser(s.carts, userId).value;
              var lines := s.carts[ci].val.productos;
              var o := r.resp.body.val;
              && r.resp.status == Created
              && |lines| > 0 && AllPriced(lines, s.products)
              && r.resp.body.id == newId
              && o.usuario == userId && o.estado == Pendiente && o.metodoPago == metodoPago
              && SameLines(lines, o.productos)
              && o.total == Some(CartAmount(lines, s.products))
              && r.store.orders == s.orders + [r.resp.body]
              && r.store.carts == RemoveAt(s.carts, ci)
              && OnlyCartsAndOrdersChange(s, r.store)
    ensures r.resp.Success? && Indexed(s) ==> CartOps.CartOfUser(r.store.carts, userId).None?
    ensures Indexed(s) ==> Indexed(r.store)
  {
    match CartOps.CartOfUser(s.carts, userId)
    case None => Step(s, Failure(NotFound, "Carrito no encontrado"))
    case Some(ci) =>
      var lines := s.carts[ci].val.productos;
      if |lines| == 0 then Step(s, Failure(BadRequest, "El carrito está vacío"))
      else
        var draft := Draft(userId, lines, metodoPago);
        SaveDraft(userId, lines, metodoPago, s.products);
        match PreSave(draft, s.products)
        case None => Step(s, Failure(ServerError, "Error al crear el pedido: Producto no encontrado para calcular subtotal"))
        case Some(o) =>
          if !Validates(o) then Step(s, Failure(ServerError, "Error al crear el pedido: validation failed"))
          else if Has(s.orders, newId) then Step(s, Failure(ServerError, "Error al crear el pedido: duplicate key"))
          else
            var doc := Doc(newId, o);
            var s' := s.(orders := s.orders + [doc], carts := RemoveAt(s.carts, ci));
            assert Indexed(s) ==> Indexed(s') && CartOps.CartOfUser(s'.carts, userId).None? by {
              if Indexed(s) {
                AppendKeepsIds(s.orders, newId, o);
                RemoveAtKeepsIds(s.carts, ci);
                CartOps.RemoveAtKeepsOneCart(s.carts, ci);
              }
            }
            Step(s', Success(Created, doc))
  }

  /** The order built from a cart's lines, before it is saved: PENDIENTE, no subtotals, no total. */
  function Draft(userId: Id, lines: seq<LineItem>, metodoPago: string): (o: Order)
    ensures o.usuario == userId && o.estado == Pendiente && o.metodoPago == metodoPago && o.total.None?
    ensures SameLines(lines, o.productos)
  {
    Order(userId, ConvertLines(lines), Pendiente, None, metodoPago)
  }

  /**
   Saving the draft: it is priced exactly when every product still exists,
   and then it passes the schema checks exactly when it has a payment method
   and every quantity is at least 1; its total is Σ price × quantity.
   */
  lemma SaveDraft(userId: Id, lines: seq<LineItem>, metodoPago: string, products: Table<Product>)
    ensures PreSave(Draft(userId, lines, metodoPago), products).Some? <==> AllPriced(lines, products)
    ensures PreSave(Draft(userId, lines, metodoPago), products).Some? ==>
              var o := PreSave(Draft(userId, lines, metodoPago), products).value;
              && (Validates(o) <==> metodoPago != "" && PositiveLines(lines))
              && o.usuario == userId && o.estado == Pendiente && o.metodoPago == metodoPago
              && SameLines(lines, o.productos)
              && o.total == Some(CartAmount(lines, products))
  {
    var draft := Draft(userId, lines, metodoPago);
    ConvertedAmount(lines, products);
    if PreSave(draft, products).Some? {
      var o := PreSave(draft, products).value;
      PricedLines(draft, products);
      assert SameLines(lines, o.productos);
      CalcTotalIsAmount(draft, products);
    }
  }

  /** Pricing keeps each line's product and quantity and gives it a subtotal. */
  lemma PricedLines(o: Order, products: Table<Product>)
    ensures PreSave(o, products).Some? ==>
              var p := PreSave(o, products).value.productos;
              && |p| == |o.productos|
              && forall i :: 0 <= i < |p| ==>
                   && p[i].producto == o.productos[i].producto && p[i].cantidad == o.productos[i].cantidad
                   && p[i].subtotal.Some?
  {
    if PreSave(o, products).Some? {
      var p := PreSave(o, products).value.productos;
      forall i | 0 <= i < |p|
        ensures p[i].producto == o.productos[i].producto && p[i].cantidad == o.productos[i].cantidad
        ensures p[i].subtotal.Some?
      {
        assert CalcSubtotal(o.productos[i], products) == Some(p[i]);
      }
    }
  }

  /**
   `create` as `Order.js` is written: Mongoose validates a document before it
   runs the schema's own pre-save hooks, and a line's `subtotal` is required
   while only the pricing hook sets it. The converted lines carry none, so
   validation refuses the draft order with a 500 before any pricing.
   */
  function CreateAsWritten(s: Store, userId: Id, metodoPago: string, newId: Id): (r: Step<Doc<Order>>)
    ensures r.resp.Failure? ==> r.store == s
    ensures CartOps.CartOfUser(s.carts, userId).None? ==> r.resp.status == NotFound
    ensures (CartOps.CartOfUser(s.carts, userId).Some? &&
             |s.carts[CartOps.CartOfUser(s.carts, userId).value].val.productos| == 0) ==> r.resp.status == BadRequest
    ensures r.resp.Success? ==> r == Create(s, userId, metodoPago, newId)
    ensures Indexed(s) ==> Indexed(r.store)
  {
    match CartOps.CartOfUser(s.carts, userId)
    case None => Step(s, Failure(NotFound, "Carrito no encontrado"))
    case Some(ci) =>
      var lines := s.carts[ci].val.productos;
      if |lines| == 0 then Step(s, Failure(BadRequest, "El carrito está vacío"))
      else if !Validates(Draft(userId, lines, metodoPago)) then
        Step(s, Failure(ServerError, "Error al crear el pedido: validation failed: subtotal is required"))
      else Create(s, userId, metodoPago, newId)
  }

  /**
   As written, no checkout succeeds: every non-empty cart is refused with a
   500 and left in place, including each cart the intended `Create` converts.
   */
  lemma CreateAsWrittenRefusesEveryCart(s: Store, userId: Id, metodoPago: string, newId: Id)
    requires CartOps.CartOfUser(s.carts, userId).Some?
    requires |s.carts[CartOps.CartOfUser(s.carts, userId).value].val.productos| > 0
    ensures CreateAsWritten(s, userId, metodoPago, newId) == Step(s, Failure(ServerError, "Error al crear el pedido: validation failed: subtotal is required"))
    ensures Create(s, userId, metodoPago, newId).resp.Success? <==> CanCheckOut(s, userId, metodoPago, newId)
  {
    var lines := s.carts[CartOps.CartOfUser(s.carts, userId).value].val.productos;
    assert Draft(userId, lines, metodoPago).productos[0].subtotal.None?;
    assert !Validates(Draft(userId, lines, metodoPago));
  }

  /** The cart's lines are priced exactly when the converted order lines are, and to the same amount. */
  lemma {:induction false} ConvertedAmount(lines: seq<LineItem>, products: Table<Product>)
    ensures AllPriced(lines, products) <==>
              forall i :: 0 <= i < |ConvertLines(lines)| ==> Has(products, ConvertLines(lines)[i].producto)
    ensures AllPriced(lines, products) ==> OrderAmount(ConvertLines(lines), products) == CartAmount(lines, products)
  {
    var c := ConvertLines(lines);
    assert forall i :: 0 <= i < |lines| ==> c[i].producto == lines[i].product;
    if |lines| > 0 && AllPriced(lines, products) {
      assert c[1..] == ConvertLines(lines[1..]);
      ConvertedAmount(lines[1..], products);
    }
  }

  /**
   The total frozen into the order is the estimate the cart-total endpoint
   reported just before the conversion.
   */
  lemma ConversionMatchesEstimate(s: Store, userId: Id, metodoPago: string, newId: Id)
    requires Create(s, userId, metodoPago, newId).resp.Success?
    ensures CartOps.GetCartTotal(s, userId).Success?
    ensures Create(s, userId, metodoPago, newId).resp.body.val.total == Some(CartOps.GetCartTotal(s, userId).body.total)
  {
  }

  /**
   `update`: a state outside PENDIENTE, ENVIADO, ENTREGADO, CANCELADO is a 400
   before the store is looked at; an unknown id is a 404. Otherwise only that
   order's `estado` changes, whatever state it was in (no state is terminal),
   and its total is not recomputed.
   */
  function UpdateState(s: Store, id: Id, estado: string): (r: Step<Doc<Order>>)
    ensures r.resp.Failure? ==> r.store == s
    ensures ParseState(estado).None? ==> r.resp.status == BadRequest
    ensures ParseState(estado).Some? && !Has(s.orders, id) ==> r.resp.status == NotFound
    ensures r.resp.Success? <==> ParseState(estado).Some? && Has(s.orders, id)
    ensures r.resp.Success? ==>
              var i := IndexOf(s.orders, id).value;
              && r.resp.status == Ok
              && StateName(r.resp.body.val.estado) == estado
              && r.resp.body == Doc(id, s.orders[i].val.(estado := r.resp.body.val.estado))
              && r.store == s.(orders := SetAt(s.orders, i, r.resp.body.val))
    ensures Indexed(s) ==> Indexed(r.store)
  {
    match ParseState(estado)
    case None => Step(s, Failure(BadRequest, "Estado del pedido inválido"))
    case Some(e) =>
      match IndexOf(s.orders, id)
      case None => Step(s, Failure(NotFound, "Pedido no encontrado"))
      case Some(i) =>
        var o := s.orders[i].val.(estado := e);
        Step(s.(orders := SetAt(s.orders, i, o)), Success(Ok, Doc(id, o)))
  }

  /** Setting a state twice is setting it once. */
  lemma UpdateStateIdempotent(s: Store, id: Id, estado: string)
    requires UpdateState(s, id, estado).resp.Success?
    ensures UpdateState(UpdateState(s, id, estado).store, id, estado) == UpdateState(s, id, estado)
  {
    var s1 := UpdateState(s, id, estado).store;
    var i := IndexOf(s.orders, id).value;
    assert IndexOf(s1.orders, id) == Some(i) by {
      assert forall j :: 0 <= j < |s.orders| ==> s1.orders[j].id == s.orders[j].id;
    }
  }

  /** `getById`: 400 for an empty id, 404 for an unknown one. */
  function GetById(s: Store, id: Id): (r: Response<Order>)
    ensures id == "" ==> r.status == BadRequest
    ensures id != "" && !Has(s.orders, id) ==> r.status == NotFound
    ensures r.Success? <==> id != "" && Has(s.orders, id)
    ensures r.Success? ==> r.status == Ok && Some(r.body) == Get(s.orders, id)
  {
    if id == "" then Failure(BadRequest, "El ID del pedido es obligatorio")
    else
      match Get(s.orders, id)
      case None => Failure(NotFound, "Pedido no encontrado")
      case Some(o) => Success(Ok, o)
  }

  /** `delete`: 404 for an unknown id; otherwise that order, and only it, is removed. */
  function Delete(s: Store, id: Id): (r: Step<()>)
    ensures r.resp.Failure? ==> r.store == s && r.resp.status == NotFound
    ensures r.resp.Success? <==> Has(s.orders, id)
    ensures r.resp.Success? ==> r.store == s.(orders := RemoveAt(s.orders, IndexOf(s.orders, id).value))
    ensures r.resp.Success? && Indexed(s) ==> !Has(r.store.orders, id)
    ensures Indexed(s) ==> Indexed(r.store)
  {
    match IndexOf(s.orders, id)
    case None => Step(s, Failure(NotFound, "Pedido no encontrado"))
    case Some(i) =>
      var s' := s.(orders := RemoveAt(s.orders, i));
      assert Indexed(s) ==> Indexed(s') && !Has(s'.orders, id) by {
        if Indexed(s) { RemoveAtKeepsIds(s.orders, i); }
      }
      Step(s', Success(Ok, ()))
  }

  // ---------------------------------------------------------------------
  // Statistics by state
  // ---------------------------------------------------------------------

  /** Reference definition: how many orders are in state `e`. */
  function Count(orders: Table<Order>, e: OrderState): nat {
    if |orders| == 0 then 0
    else (if orders[0].val.estado == e then 1 else 0) + Count(orders[1..], e)
  }

  /** Every order is in exactly one state, so the four counts add up to the number of orders. */
  lemma {:induction false} CountsCoverAll(orders: Table<Order>)
    ensures Count(orders, Cancelado) + Count(orders, Entregado) + Count(orders, Enviado) + Count(orders, Pendiente) == |orders|
  {
    if |orders| > 0 {
      CountsCoverAll(orders[1..]);
    }
  }

  /** A state has a positive count exactly when some order is in it. */
  lemma {:induction false} CountPositive(orders: Table<Order>, e: OrderState)
    ensures Count(orders, e) > 0 <==> Occurs(orders, e)
  {
    if |orders| > 0 {
      CountPositive(orders[1..], e);
      if Count(orders[1..], e) > 0 {
        var i :| 0 <= i < |orders[1..]| && orders[1..][i].val.estado == e;
        assert orders[i + 1].val.estado == e;
      }
      if exists i :: 0 <= i < |orders| && orders[i].val.estado == e {
        var i :| 0 <= i < |orders| && orders[i].val.estado == e;
        if i > 0 { assert orders[1..][i - 1].val.estado == e; }
      }
    }
  }

  /** Byte-wise string order, the order `$sort: { _id: 1 }` puts the state names in. */
  predicate Below(a: string, b: string) {
    |b| > 0 && (|a| == 0 || a[0] < b[0] || (a[0] == b[0] && Below(a[1..], b[1..])))
  }

  /** Position of a state among the state names in ascending order. */
  function Rank(e: OrderState): nat {
    match e
    case Cancelado => 0
    case Entregado => 1
    case Enviado => 2
    case Pendiente => 3
  }

  /** `Rank` follows the byte-wise order of the state names. */
  lemma RankFollowsNames(a: OrderState, b: OrderState)
    ensures Rank(a) < Rank(b) <==> Below(StateName(a), StateName(b))
  {
    assert Below("CANCELADO", "ENTREGADO");
    assert Below("ENTREGADO", "ENVIADO") by {
      assert Below("TREGADO", "VIADO");
    }
    assert Below("ENVIADO", "PENDIENTE");
    assert !Below("ENVIADO", "ENTREGADO") by {
      assert !Below("VIADO", "TREGADO");
    }
  }

  /** One `$group` bucket: the state and how many orders are in it. */
  datatype StateCount = StateCount(estado: OrderState, total: nat)

  function Bucket(orders: Table<Order>, e: OrderState): (r: seq<StateCount>)
    ensures |r| <= 1
    ensures |r| == 1 <==> Count(orders, e) > 0
    ensures |r| == 1 ==> r[0] == StateCount(e, Count(orders, e))
  {
    var n := Count(orders, e);
    if n > 0 then [StateCount(e, n)] else []
  }

  /**
   `getOrdersByState`: one bucket per state that has orders, with its count,
   sorted ascending by state name.
   */
  function Stats(orders: Table<Order>): (r: seq<StateCount>)
    ensures forall i :: 0 <= i < |r| ==> r[i].total == Count(orders, r[i].estado) && r[i].total > 0
    ensures forall e :: Listed(r, e) <==> Count(orders, e) > 0
    ensures forall i, j :: 0 <= i < j < |r| ==> Rank(r[i].estado) < Rank(r[j].estado)
  {
    var r := Bucket(orders, Cancelado) + Bucket(orders, Entregado) + Bucket(orders, Enviado) + Bucket(orders, Pendiente);
    BucketsListed(orders);
    BucketsOrdered(orders);
    r
  }

  /** Some bucket of `r` is for state `e`. */
  predicate Listed(r: seq<StateCount>, e: OrderState) {
    exists i :: 0 <= i < |r| && r[i].estado == e
  }

  /** Some order is in state `e`. */
  predicate Occurs(orders: Table<Order>, e: OrderState) {
    exists i :: 0 <= i < |orders| && orders[i].val.estado == e
  }

  lemma BucketsOrdered(orders: Table<Order>)
    ensures var r := Bucket(orders, Cancelado) + Bucket(orders, Entregado) + Bucket(orders, Enviado) + Bucket(orders, Pendiente);
            && (forall i :: 0 <= i < |r| ==> r[i].total == Count(orders, r[i].estado) && r[i].total > 0)
            && (forall i, j :: 0 <= i < j < |r| ==> Rank(r[i].estado) < Rank(r[j].estado))
  {
    var c, d, v, p := Bucket(orders, Cancelado), Bucket(orders, Entregado), Bucket(orders, Enviado), Bucket(orders, Pendiente);
    var r := c + d + v + p;
    forall i | 0 <= i < |r|
      ensures r[i].total == Count(orders, r[i].estado) && r[i].total > 0
      ensures Rank(r[i].estado) == (if i < |c| then 0 else if i < |c| + |d| then 1 else if i < |c| + |d| + |v| then 2 else 3)
    {
      if i < |c| { assert r[i] == c[i]; }
      else if i < |c| + |d| { assert r[i] == d[i - |c|]; }
      else if i < |c| + |d| + |v| { assert r[i] == v[i - |c| - |d|]; }
      else { assert r[i] == p[i - |c| - |d| - |v|]; }
    }
  }

  lemma BucketsListed(orders: Table<Order>)
    ensures var r := Bucket(orders, Cancelado) + Bucket(orders, Entregado) + Bucket(orders, Enviado) + Bucket(orders, Pendiente);
            forall e :: Listed(r, e) <==> Count(orders, e) > 0
  {
    var c, d, v, p := Bucket(orders, Cancelado), Bucket(orders, Entregado), Bucket(orders, Enviado), Bucket(orders, Pendiente);
    var r := c + d + v + p;
    forall e | Listed(r, e) ensures Count(orders, e) > 0 {
      var i :| 0 <= i < |r| && r[i].estado == e;
      if i < |c| { assert r[i] == c[i]; }
      else if i < |c| + |d| { assert r[i] == d[i - |c|]; }
      else if i < |c| + |d| + |v| { assert r[i] == v[i - |c| - |d|]; }
      else { assert r[i] == p[i - |c| - |d| - |v|]; }
    }
    forall e | Count(orders, e) > 0 ensures Listed(r, e) {
      match e
      case Cancelado => assert r[0] == c[0];
      case Entregado => assert r[|c|] == d[0];
      case Enviado => assert r[|c| + |d|] == v[0];
      case Pendiente => assert r[|c| + |d| + |v|] == p[0];
    }
  }

  /** Sum of the bucket counts. */
  function Total(r: seq<StateCount>): nat {
    if |r| == 0 then 0 else r[0].total + Total(r[1..])
  }

  lemma {:induction false} TotalAppend(a: seq<StateCount>, b: seq<StateCount>)
    ensures Total(a + b) == Total(a) + Total(b)
  {
    if |a| > 0 {
      assert (a + b)[1..] == a[1..] + b;
      TotalAppend(a[1..], b);
    } else {
      assert a + b == b;
    }
  }

  /**
   The statistics account for every order exactly once, list each state at
   most once, and come out in ascending order of the state names.
   */
  lemma StatsSummary(orders: Table<Order>)
    ensures Total(Stats(orders)) == |orders|
    ensures forall i, j :: 0 <= i < j < |Stats(orders)| ==> Below(StateName(Stats(orders)[i].estado), StateName(Stats(orders)[j].estado))
    ensures forall e :: Listed(Stats(orders), e) <==> Occurs(orders, e)
  {
    StatsTotal(orders);
    var r := Stats(orders);
    forall i, j | 0 <= i < j < |r|
      ensures Below(StateName(r[i].estado), StateName(r[j].estado))
    {
      RankFollowsNames(r[i].estado, r[j].estado);
    }
    forall e: OrderState
      ensures Listed(r, e) <==> Occurs(orders, e)
    {
      CountPositive(orders, e);
    }
  }

  lemma StatsTotal(orders: Table<Order>)
    ensures Total(Stats(orders)) == |orders|
  {
    var c, d, v, p := Bucket(orders, Cancelado), Bucket(orders, Entregado), Bucket(orders, Enviado), Bucket(orders, Pendiente);
    assert Stats(orders) == c + d + v + p;
    TotalAppend(c, d);
    TotalAppend(c + d, v);
    TotalAppend(c + d + v, p);
    assert Total(c) == Count(orders, Cancelado) && Total(d) == Count(orders, Entregado);
    assert Total(v) == Count(orders, Enviado) && Total(p) == Count(orders, Pendiente);
    CountsCoverAll(orders);
  }

  /**
   `getOrdersByUserId`: the user's orders in collection order, each once for
   every time the collection holds it; 404 when there are none.
   */
  function ByUser(s: Store, userId: Id): (r: Response<seq<Doc<Order>>>)
    ensures r.Success? <==> exists i :: 0 <= i < |s.orders| && s.orders[i].val.usuario == userId
    ensures r.Failure? ==> r.status == NotFound
    ensures r.Success? ==> && r.status == Ok
                           && (forall i :: 0 <= i < |r.body| ==> r.body[i] in s.orders && r.body[i].val.usuario == userId)
                           && (forall i :: 0 <= i < |s.orders| && s.orders[i].val.usuario == userId ==> s.orders[i] in r.body)
                           && Subsequence(r.body, s.orders)
                           && forall d :: multiset(r.body)[d] == if d.val.usuario == userId then multiset(s.orders)[d] else 0
  {
    var mine := Where(s.orders, (d: Doc<Order>) => d.val.usuario == userId);
    WhereCounts(s.orders, (d: Doc<Order>) => d.val.usuario == userId);
    WhereSubsequence(s.orders, (d: Doc<Order>) => d.val.usuario == userId);
    assert |mine| > 0 ==> mine[0] in s.orders && mine[0].val.usuario == userId;
    if |mine| == 0 then Failure(NotFound, "No se encontraron pedidos para este usuario")
    else Success(Ok, mine)
  }

  /** A new order reads back by its id, unless that id is empty (a 400). */
  lemma CreateThenGetById(s: Store, userId: Id, metodoPago: string, newId: Id)
    requires Create(s, userId, metodoPago, newId).resp.Success?
    ensures var c := Create(s, userId, metodoPago, newId);
            newId != "" ==> GetById(c.store, newId) == Success(Ok, c.resp.body.val)
  {
    var c := Create(s, userId, metodoPago, newId);
    assert CanCheckOut(s, userId, metodoPago, newId);
    assert c.resp.body == Doc(newId, c.resp.body.val);
    GetAppendFresh(s.orders, newId, c.resp.body.val);
  }

  /** A new order comes last among its user's orders, after those listed before. */
  lemma CreateThenByUser(s: Store, userId: Id, metodoPago: string, newId: Id)
    requires Create(s, userId, metodoPago, newId).resp.Success?
    ensures var c := Create(s, userId, metodoPago, newId);
            ByUser(c.store, userId)
            == Success(Ok, (if ByUser(s, userId).Success? then ByUser(s, userId).body else []) + [c.resp.body])
  {
    var c := Create(s, userId, metodoPago, newId);
    var p := (d: Doc<Order>) => d.val.usuario == userId;
    assert c.store.orders == s.orders + [c.resp.body];
    assert c.resp.body.val.usuario == userId;
    WhereAppend(s.orders, c.resp.body, p);
    assert ByUser(c.store, userId).body == Where(c.store.orders, p);
  }

  /** The store of the checkout scenario: one user "u" and one product "p1" priced 1000. */
  function ScenarioStore(carts: Table<Cart>): Store {
    Store([Doc("u", User("Ana", "ana@mail", "$2b$pw", [], "555", Client))],
          [Doc("p1", Product("P1", 1000, "d", None, "m", 10, []))], [], [], carts, [])
  }

  /** Creating a cart and adding 2 and then 3 units of "p1" leaves one line of 5. */
  lemma ScenarioCart()
    ensures var s1 := CartOps.Create(ScenarioStore([]), "u", "c").store;
            var s2 := CartOps.Update(s1, "c", "p1", 2).store;
            CartOps.Update(s2, "c", "p1", 3).store == ScenarioStore([Doc("c", Cart("u", [LineItem("p1", 5)]))])
  {
    var s0 := ScenarioStore([]);
    assert s0.users[0].id == "u";
    var s1 := CartOps.Create(s0, "u", "c").store;
    assert s1 == ScenarioStore([Doc("c", Cart("u", []))]);
    assert IndexOf(s1.carts, "c") == Some(0);
    assert CartOps.LineIndex([], "p1") == None;
    assert CartOps.Merge([], "p1", 2) == [LineItem("p1", 2)];
    var s2 := CartOps.Update(s1, "c", "p1", 2).store;
    assert s2 == ScenarioStore([Doc("c", Cart("u", [LineItem("p1", 2)]))]);
    assert IndexOf(s2.carts, "c") == Some(0);
    assert CartOps.LineIndex([LineItem("p1", 2)], "p1") == Some(0);
    assert CartOps.Merge([LineItem("p1", 2)], "p1", 3) == [LineItem("p1", 5)];
  }

  /** Checking that cart out gives one line of subtotal 5000, total 5000, state PENDIENTE, and no cart. */
  lemma ScenarioCheckout()
    ensures var r := Create(ScenarioStore([Doc("c", Cart("u", [LineItem("p1", 5)]))]), "u", "tarjeta", "o");
            && r.resp == Success(Created, Doc("o", Order("u", [OrderLine("p1", 5, Some(5000))], Pendiente, Some(5000), "tarjeta")))
            && r.store == ScenarioStore([]).(orders := [r.resp.body])
  {
    var s3 := ScenarioStore([Doc("c", Cart("u", [LineItem("p1", 5)]))]);
    assert CartOps.CartOfUser(s3.carts, "u") == Some(0);
    assert s3.carts[0].val.productos == [LineItem("p1", 5)];
    ScenarioPriced();
    assert s3.products == ScenarioStore([]).products;
    var o := Order("u", [OrderLine("p1", 5, Some(5000))], Pendiente, Some(5000), "tarjeta");
    assert Validates(o);
    CreateStores(s3, "u", "tarjeta", "o", 0, o);
    assert RemoveAt(s3.carts, 0) == [];
  }

  /** A checkout whose priced draft validates stores exactly that order and drops the cart. */
  lemma CreateStores(s: Store, userId: Id, metodoPago: string, newId: Id, ci: nat, o: Order)
    requires CartOps.CartOfUser(s.carts, userId) == Some(ci)
    requires |s.carts[ci].val.productos| > 0
    requires PreSave(Draft(userId, s.carts[ci].val.productos, metodoPago), s.products) == Some(o)
    requires Validates(o) && !Has(s.orders, newId)
    ensures Create(s, userId, metodoPago, newId)
         == Step(s.(orders := s.orders + [Doc(newId, o)], carts := RemoveAt(s.carts, ci)), Success(Created, Doc(newId, o)))
  {
  }

  /** The draft of that cart is priced at 1000 × 5. */
  lemma ScenarioPriced()
    ensures PreSave(Draft("u", [LineItem("p1", 5)], "tarjeta"), ScenarioStore([]).products)
         == Some(Order("u", [OrderLine("p1", 5, Some(5000))], Pendiente, Some(5000), "tarjeta"))
  {
    var products := ScenarioStore([]).products;
    var lines := ConvertLines([LineItem("p1", 5)]);
    assert lines == [OrderLine("p1", 5, None)];
    assert IndexOf(products, "p1") == Some(0);
    assert CalcSubtotal(lines[0], products) == Some(OrderLine("p1", 5, Some(5000)));
    var o := CalcTotal(Draft("u", [LineItem("p1", 5)], "tarjeta"), products);
    assert o.value.productos == [OrderLine("p1", 5, Some(5000))];
    assert Subtotals([OrderLine("p1", 5, Some(5000))]) == [5000];
    assert Sum([5000]) == 5000;
  }
}
