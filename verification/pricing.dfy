/**
 Prices, subtotals and totals: the order's pre-save hook (`calcularSubtotal`,
 `calcularTotal`) and the read-time estimate of a cart's total.
 Every price is read from the product collection at the moment of the call.
 */
module Pricing {
  import opened Values
  import opened Collection
  import opened Records

  /** `xs.reduce((acc, x) => acc + x, 0)`: a left fold. */
  function Sum(xs: seq<int>): int
    decreases |xs|
  {
    if |xs| == 0 then 0 else Sum(xs[..|xs| - 1]) + xs[|xs| - 1]
  }

  /** The fold distributes over concatenation, so it equals the sum taken from either end. */
  lemma {:induction false} SumAppend(xs: seq<int>, ys: seq<int>)
    ensures Sum(xs + ys) == Sum(xs) + Sum(ys)
    decreases |ys|
  {
    if |ys| > 0 {
      var zs := xs + ys;
      assert zs[..|zs| - 1] == xs + ys[..|ys| - 1];
      SumAppend(xs, ys[..|ys| - 1]);
    } else {
      assert xs + ys == xs;
    }
  }

  /** The fold read from the front: the first element plus the fold of the rest. */
  lemma SumCons(x: int, xs: seq<int>)
    ensures Sum([x] + xs) == x + Sum(xs)
  {
    SumAppend([x], xs);
  }

  /** The current price of a product, if it still exists. */
  function PriceOf(products: Table<Product>, id: Id): (r: Option<int>)
    ensures r.Some? <==> Has(products, id)
    ensures r.Some? ==> r.value == Get(products, id).value.precio
  {
    match Get(products, id)
    case Some(p) => Some(p.precio)
    case None => None
  }

  /**
   `calcularSubtotal`: look the product up and set `subtotal = precio * cantidad`;
   a missing product throws, and the line gets no subtotal.
   */
  function CalcSubtotal(line: OrderLine, products: Table<Product>): (r: Option<OrderLine>)
    ensures r.Some? <==> Has(products, line.producto)
    ensures r.Some? ==> r.value.producto == line.producto && r.value.cantidad == line.cantidad
    ensures r.Some? ==> r.value.subtotal == Some(PriceOf(products, line.producto).value * line.cantidad)
  {
    match PriceOf(products, line.producto)
    case Some(precio) => Some(line.(subtotal := Some(precio * line.cantidad)))
    case None => None
  }

  /** The subtotals the hook's `Promise.all` resolves to, in line order. */
  function Subtotals(lines: seq<OrderLine>): (r: seq<int>)
    ensures |r| == |lines|
  {
    seq(|lines|, i requires 0 <= i < |lines| => lines[i].subtotal.GetOr(0))
  }

  /**
   `calcularTotal`: every line's subtotal is computed, then `total` is their sum.
   If any product is missing the whole computation fails and nothing is assigned.
   */
  function CalcTotal(o: Order, products: Table<Product>): (r: Option<Order>)
    ensures r.Some? <==> forall i :: 0 <= i < |o.productos| ==> Has(products, o.productos[i].producto)
    ensures r.Some? ==> && r.value.usuario == o.usuario && r.value.estado == o.estado
                        && r.value.metodoPago == o.metodoPago
                        && |r.value.productos| == |o.productos|
    ensures r.Some? ==> forall i :: 0 <= i < |o.productos| ==>
                          CalcSubtotal(o.productos[i], products) == Some(r.value.productos[i])
    ensures r.Some? ==> r.value.total == Some(Sum(Subtotals(r.value.productos)))
  {
    match MapAll(o.productos, (l: OrderLine) => CalcSubtotal(l, products))
    case None => None
    case Some(lines) => Some(o.(productos := lines, total := Some(Sum(Subtotals(lines)))))
  }

  /** The pre-save hook: every save recomputes the total. */
  function PreSave(o: Order, products: Table<Product>): (r: Option<Order>)
    ensures r.Some? <==> forall i :: 0 <= i < |o.productos| ==> Has(products, o.productos[i].producto)
    ensures r.Some? ==> r.value.total.Some? && |r.value.productos| == |o.productos|
  {
    CalcTotal(o, products)
  }

  /** Reference definition: Σ current price × quantity over an order's lines. */
  function OrderAmount(lines: seq<OrderLine>, products: Table<Product>): int
    requires forall i :: 0 <= i < |lines| ==> Has(products, lines[i].producto)
  {
    if |lines| == 0 then 0
    else PriceOf(products, lines[0].producto).value * lines[0].cantidad + OrderAmount(lines[1..], products)
  }

  /** What the hook computes is Σ price × quantity; with no lines the total is 0. */
  lemma {:induction false} CalcTotalIsAmount(o: Order, products: Table<Product>)
    requires CalcTotal(o, products).Some?
    ensures CalcTotal(o, products).value.total == Some(OrderAmount(o.productos, products))
    ensures |o.productos| == 0 ==> CalcTotal(o, products).value.total == Some(0)
  {
    var lines := CalcTotal(o, products).value.productos;
    SubtotalsAmount(o.productos, lines, products);
  }

  lemma {:induction false} SubtotalsAmount(src: seq<OrderLine>, lines: seq<OrderLine>, products: Table<Product>)
    requires |lines| == |src|
    requires forall i :: 0 <= i < |src| ==> CalcSubtotal(src[i], products) == Some(lines[i])
    ensures forall i :: 0 <= i < |src| ==> Has(products, src[i].producto)
    ensures Sum(Subtotals(lines)) == OrderAmount(src, products)
  {
    forall i | 0 <= i < |src| ensures Has(products, src[i].producto) {
      assert CalcSubtotal(src[i], products).Some?;
    }
    if |src| > 0 {
      var head := Subtotals(lines)[0];
      assert CalcSubtotal(src[0], products) == Some(lines[0]);
      assert head == PriceOf(products, src[0].producto).value * src[0].cantidad;
      forall i | 0 <= i < |src| - 1
        ensures CalcSubtotal(src[1..][i], products) == Some(lines[1..][i])
      {
        assert src[1..][i] == src[i + 1] && lines[1..][i] == lines[i + 1];
      }
      SubtotalsAmount(src[1..], lines[1..], products);
      SubtotalsCons(lines);
      SumCons(head, Subtotals(lines[1..]));
    }
  }

  /** The subtotals of a non-empty order: the first line's, then the rest's. */
  lemma SubtotalsCons(lines: seq<OrderLine>)
    requires |lines| > 0
    ensures Subtotals(lines) == [Subtotals(lines)[0]] + Subtotals(lines[1..])
  {
  }

  /**
   Saving recomputes from current prices only: whatever subtotals and total the
   order held before, the hook produces the same order.
   */
  lemma PreSaveOverwrites(o: Order, o': Order, products: Table<Product>)
    requires o'.usuario == o.usuario && o'.estado == o.estado && o'.metodoPago == o.metodoPago
    requires |o'.productos| == |o.productos|
    requires forall i :: 0 <= i < |o.productos| ==>
               o'.productos[i].producto == o.productos[i].producto && o'.productos[i].cantidad == o.productos[i].cantidad
    ensures PreSave(o, products) == PreSave(o', products)
  {
    var a := PreSave(o, products);
    var b := PreSave(o', products);
    if a.Some? {
      assert b.Some?;
      assert a.value.productos == b.value.productos;
    }
  }

  /** One line of the cart-total response. */
  datatype PricedItem = PricedItem(nombre: string, cantidad: int, precioUnitario: int, subtotal: int)

  /** The cart-total response body (the cart id and owner aside). */
  datatype CartTotalView = CartTotalView(productos: seq<PricedItem>, total: int)

  /** One cart line with its product populated; a deleted product makes `p.product.precio` throw. */
  function PriceItem(line: LineItem, products: Table<Product>): (r: Option<PricedItem>)
    ensures r.Some? <==> Has(products, line.product)
    ensures r.Some? ==> && r.value.nombre == Get(products, line.product).value.nombre
                        && r.value.cantidad == line.cantidad
                        && r.value.precioUnitario == PriceOf(products, line.product).value
                        && r.value.subtotal == r.value.precioUnitario * r.value.cantidad
  {
    match Get(products, line.product)
    case Some(p) => Some(PricedItem(p.nombre, line.cantidad, p.precio, p.precio * line.cantidad))
    case None => None
  }

  /** Every line's product still exists, so every line has a price. */
  predicate AllPriced(lines: seq<LineItem>, products: Table<Product>) {
    forall i :: 0 <= i < |lines| ==> Has(products, lines[i].product)
  }

  /** Reference definition: Σ current price × quantity over a cart's lines. */
  function CartAmount(lines: seq<LineItem>, products: Table<Product>): int
    requires AllPriced(lines, products)
  {
    if |lines| == 0 then 0
    else PriceOf(products, lines[0].product).value * lines[0].cantidad + CartAmount(lines[1..], products)
  }

  /** The subtotals of the priced lines, in line order. */
  function ItemSubtotals(items: seq<PricedItem>): (r: seq<int>)
    ensures |r| == |items|
  {
    seq(|items|, i requires 0 <= i < |items| => items[i].subtotal)
  }

  /**
   `getCartTotal`'s computation: price every line, keeping order and count,
   then fold the subtotals. Fails when a line's product no longer exists.
   */
  function CartTotal(lines: seq<LineItem>, products: Table<Product>): (r: Option<CartTotalView>)
    ensures r.Some? <==> AllPriced(lines, products)
    ensures r.Some? ==> |r.value.productos| == |lines|
    ensures r.Some? ==> forall i :: 0 <= i < |lines| ==> PriceItem(lines[i], products) == Some(r.value.productos[i])
  {
    match MapAll(lines, (l: LineItem) => PriceItem(l, products))
    case None => None
    case Some(items) => Some(CartTotalView(items, Sum(ItemSubtotals(items))))
  }

  /** The cart estimate is Σ price × quantity over the cart's lines. */
  lemma CartTotalIsAmount(lines: seq<LineItem>, products: Table<Product>)
    requires CartTotal(lines, products).Some?
    ensures CartTotal(lines, products).value.total == CartAmount(lines, products)
  {
    ItemsAmount(lines, CartTotal(lines, products).value.productos, products);
  }

  lemma {:induction false} ItemsAmount(lines: seq<LineItem>, items: seq<PricedItem>, products: Table<Product>)
    requires |items| == |lines|
    requires forall i :: 0 <= i < |lines| ==> PriceItem(lines[i], products) == Some(items[i])
    ensures AllPriced(lines, products)
    ensures Sum(ItemSubtotals(items)) == CartAmount(lines, products)
  {
    forall i | 0 <= i < |lines| ensures Has(products, lines[i].product) {
      assert PriceItem(lines[i], products).Some?;
    }
    if |lines| > 0 {
      forall i | 0 <= i < |lines| - 1
        ensures PriceItem(lines[1..][i], products) == Some(items[1..][i])
      {
        assert lines[1..][i] == lines[i + 1] && items[1..][i] == items[i + 1];
      }
      ItemsAmount(lines[1..], items[1..], products);
      var head := ItemSubtotals(items)[0];
      assert PriceItem(lines[0], products) == Some(items[0]);
      assert head == PriceOf(products, lines[0].product).value * lines[0].cantidad;
      ItemSubtotalsCons(items);
      SumCons(head, ItemSubtotals(items[1..]));
    }
  }

  /** The subtotals of a non-empty priced cart: the first line's, then the rest's. */
  lemma ItemSubtotalsCons(items: seq<PricedItem>)
    requires |items| > 0
    ensures ItemSubtotals(items) == [ItemSubtotals(items)[0]] + ItemSubtotals(items[1..])
  {
  }
}
