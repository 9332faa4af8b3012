/**
 The record shapes of the store (the Mongoose schemas) and the store itself:
 one collection per model.
 */
module Records {
  import opened Values
  import opened Collection

  /** `rol`: enum ['CLIENT', 'ADMIN'], default 'CLIENT'. */
  datatype Role = Client | Admin

  function RoleName(r: Role): string {
    match r
    case Client => "CLIENT"
    case Admin => "ADMIN"
  }

  /**
   Mongoose's handling of `rol`: an absent field takes the default; a given
   one, the empty string included, must pass the enum check.
   */
  function ParseRole(s: Option<string>): (r: Option<Role>)
    ensures s.None? ==> r == Some(Client)
    ensures s.Some? ==> (r.Some? <==> s.value == "CLIENT" || s.value == "ADMIN")
    ensures s.Some? && r.Some? ==> RoleName(r.value) == s.value
  {
    match s
    case None => Some(Client)
    case Some(name) =>
      if name == "CLIENT" then Some(Client)
      else if name == "ADMIN" then Some(Admin)
      else None
  }

  datatype Address = Address(calle: string, codigoPostal: string, numero: string)

  /** A user; `password` holds the hash, never the plaintext. */
  datatype User = User(
    nombre: string,
    email: string,
    password: string,
    direccion: seq<Address>,
    telefono: string,
    rol: Role)

  datatype Product = Product(
    nombre: string,
    precio: int,
    descripcion: string,
    categoria: Option<Id>,
    marca: string,
    stock: int,
    reviews: seq<Id>)

  datatype Category = Category(nombre: string, descripcion: string, productos: seq<Id>)

  /** `calificacion`: min 1, max 5. */
  type Rating = r: int | 1 <= r <= 5 witness 1

  datatype Review = Review(usuario: Id, producto: Id, calificacion: Rating, comentario: string)

  /** A cart line; the schema asks `cantidad >= 1`. */
  datatype LineItem = LineItem(product: Id, cantidad: int)

  datatype Cart = Cart(usuario: Id, productos: seq<LineItem>)

  datatype OrderState = Pendiente | Enviado | Entregado | Cancelado

  function StateName(e: OrderState): string {
    match e
    case Pendiente => "PENDIENTE"
    case Enviado => "ENVIADO"
    case Entregado => "ENTREGADO"
    case Cancelado => "CANCELADO"
  }

  /** The whitelist of the state update: `validStates.includes(estado)`. */
  function ParseState(s: string): (r: Option<OrderState>)
    ensures r.Some? <==> s in ["PENDIENTE", "ENVIADO", "ENTREGADO", "CANCELADO"]
    ensures r.Some? ==> StateName(r.value) == s
  {
    if s == "PENDIENTE" then Some(Pendiente)
    else if s == "ENVIADO" then Some(Enviado)
    else if s == "ENTREGADO" then Some(Entregado)
    else if s == "CANCELADO" then Some(Cancelado)
    else None
  }

  /** Every state is accepted under its own name. */
  lemma ParseStateName(e: OrderState)
    ensures ParseState(StateName(e)) == Some(e)
  {
  }

  /** An order line; `subtotal` is unset until the pre-save hook computes it. */
  datatype OrderLine = OrderLine(producto: Id, cantidad: int, subtotal: Option<int>)

  datatype Order = Order(
    usuario: Id,
    productos: seq<OrderLine>,
    estado: OrderState,
    total: Option<int>,
    metodoPago: string)

  datatype Store = Store(
    users: Table<User>,
    products: Table<Product>,
    categories: Table<Category>,
    reviews: Table<Review>,
    carts: Table<Cart>,
    orders: Table<Order>)

  /** What an operation leaves behind: the new store and the response it sends. */
  datatype Step<+T> = Step(store: Store, resp: Response<T>)

  /** `Cart.usuario` is `unique`: at most one cart per user. */
  predicate OneCartPerUser(carts: Table<Cart>) {
    forall i, j :: 0 <= i < j < |carts| ==> carts[i].val.usuario != carts[j].val.usuario
  }

  /** `User.email` is `unique`. */
  predicate UniqueEmails(users: Table<User>) {
    forall i, j :: 0 <= i < j < |users| ==> users[i].val.email != users[j].val.email
  }

  /** `Category.nombre` is `unique`. */
  predicate UniqueCategoryNames(cats: Table<Category>) {
    forall i, j :: 0 <= i < j < |cats| ==> cats[i].val.nombre != cats[j].val.nombre
  }

  /** The invariants the store's indexes keep, whatever the controllers do. */
  predicate Indexed(s: Store) {
    && DistinctIds(s.users) && DistinctIds(s.products) && DistinctIds(s.categories)
    && DistinctIds(s.reviews) && DistinctIds(s.carts) && DistinctIds(s.orders)
    && OneCartPerUser(s.carts) && UniqueEmails(s.users) && UniqueCategoryNames(s.categories)
  }

  /** The schema's `cantidad: { min: 1 }` on every cart line. */
  predicate PositiveLines(lines: seq<LineItem>) {
    forall i :: 0 <= i < |lines| ==> lines[i].cantidad >= 1
  }
}
