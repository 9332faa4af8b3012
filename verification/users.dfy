/**
 The user controller: sign-up, the owner-or-admin reads and writes, login
 with a uniform failure, and logout's email check.

 The handler reads `req.user` from a middleware that never runs, so the
 caller's identity is a `Claims` parameter here; a token is the claims it
 carries (see `Auth`).
 */
module UserOps {
  import opened Values
  import opened Collection
  import opened Records
  import opened Auth

  // ---------------------------------------------------------------------
  // Addresses
  // ---------------------------------------------------------------------

  /**
   `direcciones` as `create` normalises it: an array is kept as it is, any
   other truthy value becomes a one-element list, a falsy one the empty list.
   */
  function NormaliseAddresses(v: Json): (r: seq<Json>)
    ensures v.Arr? ==> r == v.items
    ensures !v.Arr? ==> |r| <= 1 && (|r| == 1 <==> Truthy(v)) && (|r| == 1 ==> r[0] == v)
  {
    match v
    case Arr(items) => items
    case _ => if Truthy(v) then [v] else []
  }

  /** Normalising is idempotent: a normalised list is an array, which is kept. */
  lemma NormaliseIdempotent(v: Json)
    ensures NormaliseAddresses(Arr(NormaliseAddresses(v))) == NormaliseAddresses(v)
    ensures forall x :: x in NormaliseAddresses(v) ==> x == v || (v.Arr? && x in v.items)
  {
  }

  // ---------------------------------------------------------------------
  // Lookups and invariants
  // ---------------------------------------------------------------------

  /** `User.findOne({ email })`. */
  function UserWithEmail(users: Table<User>, email: string): (r: Option<nat>)
    ensures r.Some? ==> r.value < |users| && users[r.value].val.email == email
    ensures r.None? <==> forall j :: 0 <= j < |users| ==> users[j].val.email != email
    ensures r.Some? && UniqueEmails(users) ==>
              forall j :: 0 <= j < |users| && users[j].val.email == email ==> j == r.value
  {
    FirstIndex(users, (d: Doc<User>) => d.val.email == email)
  }

  /** Some user other than the one at position `i` already has this email. */
  predicate EmailTakenByOther(users: Table<User>, email: string, i: nat) {
    exists j :: 0 <= j < |users| && j != i && users[j].val.email == email
  }

  /** Everything but the users is left as it was. */
  predicate OnlyUsersChange(s: Store, s': Store) {
    s'.products == s.products && s'.categories == s.categories && s'.reviews == s.reviews
    && s'.carts == s.carts && s'.orders == s.orders
  }

  lemma UniqueEmailsAppend(users: Table<User>, d: Doc<User>)
    requires UniqueEmails(users)
    requires forall j :: 0 <= j < |users| ==> users[j].val.email != d.val.email
    ensures UniqueEmails(users + [d])
  {
    var t := users + [d];
    forall i, j | 0 <= i < j < |t| ensures t[i].val.email != t[j].val.email {
      if j == |users| {
        assert t[i] == users[i];
      }
    }
  }

  lemma UniqueEmailsSet(users: Table<User>, i: nat, u: User)
    requires UniqueEmails(users) && i < |users|
    requires !EmailTakenByOther(users, u.email, i)
    ensures UniqueEmails(SetAt(users, i, u))
  {
    var t := SetAt(users, i, u);
    forall a, b | 0 <= a < b < |t| ensures t[a].val.email != t[b].val.email {
      if a == i {
        assert users[b].val.email != u.email;
      } else if b == i {
        assert users[a].val.email != u.email;
      }
    }
  }

  lemma UniqueEmailsRemove(users: Table<User>, i: nat)
    requires UniqueEmails(users) && i < |users|
    ensures UniqueEmails(RemoveAt(users, i))
  {
    var t := RemoveAt(users, i);
    forall a, b | 0 <= a < b < |t| ensures t[a].val.email != t[b].val.email {
      var a' := if a < i then a else a + 1;
      var b' := if b < i then b else b + 1;
      assert t[a] == users[a'] && t[b] == users[b'];
    }
  }

  // ---------------------------------------------------------------------
  // Create
  // ---------------------------------------------------------------------

  /** The body of a sign-up request; `password` and `rol` are None when absent. */
  datatype UserInput = UserInput(
    nombre: string,
    email: string,
    password: Option<string>,
    telefono: string,
    rol: Option<string>,
    direcciones: Json)

  /** What `create` answers with: no password, and the addresses as normalised. */
  datatype UserSummary = UserSummary(nombre: string, email: string, direcciones: seq<Json>)

  /**
   `create`: every failure is a 500 — hashing a missing password throws, a
   missing name, email or phone or a given role other than CLIENT or ADMIN
   (the empty string included) fails the schema, and an
   email already in use violates its unique index. The stored record holds
   the hash; its addresses stay empty, because the handler writes
   `direcciones` while the schema's field is `direccion`.
   */
  function Create(s: Store, req: UserInput, newId: Id): (r: Step<UserSummary>)
    ensures r.resp.Failure? ==> r.store == s && r.resp.status == ServerError
    ensures r.resp.Success? <==> && req.password.Some?
                                 && req.nombre != "" && req.email != "" && req.telefono != ""
                                 && ParseRole(req.rol).Some?
                                 && UserWithEmail(s.users, req.email).None?
                                 && !Has(s.users, newId)
    ensures r.resp.Success? ==>
              && r.resp.status == Created
              && r.resp.body == UserSummary(req.nombre, req.email, NormaliseAddresses(req.direcciones))
              && r.store == s.(users := s.users + [Doc(newId, User(req.nombre, req.email, Hash(req.password.value),
                                                                    [], req.telefono, ParseRole(req.rol).value))])
    ensures Indexed(s) ==> Indexed(r.store)
  {
    match req.password
    case None => Step(s, Failure(ServerError, "Error al crear el usuario: data and salt arguments required"))
    case Some(pw) =>
      if req.nombre == "" || req.email == "" || req.telefono == "" || ParseRole(req.rol).None? then
        Step(s, Failure(ServerError, "Error al crear el usuario: validation failed"))
      else if UserWithEmail(s.users, req.email).Some? || Has(s.users, newId) then
        Step(s, Failure(ServerError, "Error al crear el usuario: duplicate key"))
      else
        var d := Doc(newId, User(req.nombre, req.email, Hash(pw), [], req.telefono, ParseRole(req.rol).value));
        assert Indexed(s) ==> Indexed(s.(users := s.users + [d])) by {
          if Indexed(s) {
            AppendKeepsIds(s.users, newId, d.val);
            UniqueEmailsAppend(s.users, d);
          }
        }
        Step(s.(users := s.users + [d]),
             Success(Created, UserSummary(req.nombre, req.email, NormaliseAddresses(req.direcciones))))
  }

  /** The sign-up answer does not depend on the password at all. */
  lemma CreateResponseIgnoresPassword(s: Store, req: UserInput, pw: string, newId: Id)
    requires req.password.Some?
    ensures Create(s, req, newId).resp == Create(s, req.(password := Some(pw)), newId).resp
  {
  }

  // ---------------------------------------------------------------------
  // Reads
  // ---------------------------------------------------------------------

  /** A user as `find().select("-password -__v")` returns it. */
  datatype PublicUser = PublicUser(id: Id, nombre: string, email: string, direccion: seq<Address>,
                                   telefono: string, rol: Role)

  function Public(d: Doc<User>): PublicUser {
    PublicUser(d.id, d.val.nombre, d.val.email, d.val.direccion, d.val.telefono, d.val.rol)
  }

  /** `getAll`: admins only (403 otherwise); every user in order, without the hash. */
  function GetAll(s: Store, caller: Claims): (r: Response<seq<PublicUser>>)
    ensures r.Success? <==> IsAdmin(caller)
    ensures r.Failure? ==> r.status == Forbidden
    ensures r.Success? ==> && r.status == Ok && |r.body| == |s.users|
                           && forall i :: 0 <= i < |s.users| ==>
                                && r.body[i].id == s.users[i].id
                                && r.body[i].nombre == s.users[i].val.nombre
                                && r.body[i].email == s.users[i].val.email
                                && r.body[i].rol == s.users[i].val.rol
  {
    if !IsAdmin(caller) then Failure(Forbidden, "No autorizado")
    else Success(Ok, seq(|s.users|, i requires 0 <= i < |s.users| => Public(s.users[i])))
  }

  /** A new user is listed last by an admin's `getAll`, with no password field. */
  lemma CreateThenGetAll(s: Store, req: UserInput, newId: Id, admin: Claims)
    requires IsAdmin(admin)
    requires Create(s, req, newId).resp.Success?
    ensures GetAll(Create(s, req, newId).store, admin)
         == Success(Ok, GetAll(s, admin).body
                        + [PublicUser(newId, req.nombre, req.email, [], req.telefono, ParseRole(req.rol).value)])
  {
    var t := Create(s, req, newId).store.users;
    var a := GetAll(Create(s, req, newId).store, admin).body;
    var b := GetAll(s, admin).body + [PublicUser(newId, req.nombre, req.email, [], req.telefono, ParseRole(req.rol).value)];
    assert |a| == |b|;
    forall i | 0 <= i < |a| ensures a[i] == b[i] {
      if i < |s.users| { assert t[i] == s.users[i]; }
      else { assert t[i].id == newId && t[i].val.direccion == []; }
    }
    assert a == b;
  }

  /** What `getById` exposes: the name and the email only. */
  datatype Contact = Contact(nombre: string, email: string)

  /** `getById`: owner or admin first (403), then 404 for an unknown id. */
  function GetById(s: Store, caller: Claims, id: Id): (r: Response<Contact>)
    ensures !OwnerOrAdmin(caller, id) ==> r.Failure? && r.status == Forbidden
    ensures OwnerOrAdmin(caller, id) && !Has(s.users, id) ==> r.Failure? && r.status == NotFound
    ensures r.Success? <==> OwnerOrAdmin(caller, id) && Has(s.users, id)
    ensures r.Success? ==> r.status == Ok && r.body == Contact(Get(s.users, id).value.nombre, Get(s.users, id).value.email)
  {
    if !OwnerOrAdmin(caller, id) then Failure(Forbidden, "Acceso denegado")
    else
      match Get(s.users, id)
      case None => Failure(NotFound, "Usuario no encontrado")
      case Some(u) => Success(Ok, Contact(u.nombre, u.email))
  }

  // ---------------------------------------------------------------------
  // Update and delete
  // ---------------------------------------------------------------------

  /** The fields `update` reads from the body; "" stands for absent. */
  datatype UserPatch = UserPatch(nombre: string, email: string, password: string)

  /** `$set` of the allowed, provided fields; the password is stored hashed. */
  function ApplyPatch(u: User, p: UserPatch): (r: User)
    ensures r.nombre == (if p.nombre != "" then p.nombre else u.nombre)
    ensures r.email == (if p.email != "" then p.email else u.email)
    ensures r.password == (if p.password != "" then Hash(p.password) else u.password)
    ensures r.telefono == u.telefono && r.rol == u.rol && r.direccion == u.direccion
  {
    u.(nombre := if p.nombre != "" then p.nombre else u.nombre,
       email := if p.email != "" then p.email else u.email,
       password := if p.password != "" then Hash(p.password) else u.password)
  }

  /** The answer of a successful update. */
  datatype UpdatedView = UpdatedView(id: Id, nombre: string, email: string, telefono: string, rol: Role,
                                     direcciones: seq<Address>)

  /**
   `update`: owner or admin first (403), then 404 for an unknown id; a new
   email that another user holds violates the unique index (500). Only name,
   email and password change. The answer's `direcciones` is always empty: the
   record's field is `direccion`.
   */
  function Update(s: Store, caller: Claims, id: Id, p: UserPatch): (r: Step<UpdatedView>)
    ensures r.resp.Failure? ==> r.store == s
    ensures !OwnerOrAdmin(caller, id) ==> r.resp.status == Forbidden
    ensures OwnerOrAdmin(caller, id) && !Has(s.users, id) ==> r.resp.status == NotFound
    ensures (&& OwnerOrAdmin(caller, id) && Has(s.users, id) && p.email != ""
             && EmailTakenByOther(s.users, p.email, IndexOf(s.users, id).value)) ==> r.resp.status == ServerError
    ensures r.resp.Success? <==> && OwnerOrAdmin(caller, id) && Has(s.users, id)
                                 && (p.email != "" ==> !EmailTakenByOther(s.users, p.email, IndexOf(s.users, id).value))
    ensures r.resp.Success? ==>
              var i := IndexOf(s.users, id).value;
              var u := ApplyPatch(s.users[i].val, p);
              && r.resp.status == Ok
              && r.store == s.(users := SetAt(s.users, i, u))
              && r.resp.body == UpdatedView(id, u.nombre, u.email, u.telefono, u.rol, [])
    ensures Indexed(s) ==> Indexed(r.store)
  {
    if !OwnerOrAdmin(caller, id) then Step(s, Failure(Forbidden, "Acceso denegado"))
    else
      match IndexOf(s.users, id)
      case None => Step(s, Failure(NotFound, "Error al actualizar el usuario"))
      case Some(i) =>
        if p.email != "" && EmailTakenByOther(s.users, p.email, i) then
          Step(s, Failure(ServerError, "Error al actualizar el usuario: duplicate key"))
        else
          var u := ApplyPatch(s.users[i].val, p);
          assert Indexed(s) ==> Indexed(s.(users := SetAt(s.users, i, u))) by {
            if Indexed(s) {
              if p.email == "" {
                assert forall j :: 0 <= j < |s.users| && j != i ==> s.users[j].val.email != u.email;
              }
              UniqueEmailsSet(s.users, i, u);
            }
          }
          Step(s.(users := SetAt(s.users, i, u)), Success(Ok, UpdatedView(id, u.nombre, u.email, u.telefono, u.rol, [])))
  }

  /** Applying the same patch twice is applying it once. */
  lemma PatchIdempotent(u: User, p: UserPatch)
    ensures ApplyPatch(ApplyPatch(u, p), p) == ApplyPatch(u, p)
    ensures p == UserPatch("", "", "") ==> ApplyPatch(u, p) == u
  {
  }

  /** `delete`: owner or admin first (403), then 404; the user's carts and orders stay. */
  function Delete(s: Store, caller: Claims, id: Id): (r: Step<()>)
    ensures r.resp.Failure? ==> r.store == s
    ensures !OwnerOrAdmin(caller, id) ==> r.resp.status == Forbidden
    ensures OwnerOrAdmin(caller, id) && !Has(s.users, id) ==> r.resp.status == NotFound
    ensures r.resp.Success? <==> OwnerOrAdmin(caller, id) && Has(s.users, id)
    ensures r.resp.Success? ==> && r.store == s.(users := RemoveAt(s.users, IndexOf(s.users, id).value))
                                && (DistinctIds(s.users) ==> !Has(r.store.users, id))
    ensures Indexed(s) ==> Indexed(r.store)
  {
    if !OwnerOrAdmin(caller, id) then Step(s, Failure(Forbidden, "Acceso denegado"))
    else
      match IndexOf(s.users, id)
      case None => Step(s, Failure(NotFound, "Error al eliminar el usuario"))
      case Some(i) =>
        assert DistinctIds(s.users) ==> !Has(RemoveAt(s.users, i), id) by {
          if DistinctIds(s.users) { RemoveAtKeepsIds(s.users, i); }
        }
        assert Indexed(s) ==> Indexed(s.(users := RemoveAt(s.users, i))) by {
          if Indexed(s) {
            RemoveAtKeepsIds(s.users, i);
            UniqueEmailsRemove(s.users, i);
          }
        }
        Step(s.(users := RemoveAt(s.users, i)), Success(Ok, ()))
  }

  // ---------------------------------------------------------------------
  // Login and logout
  // ---------------------------------------------------------------------

  /** A successful login: the signed token (its payload) and the same four fields as the user. */
  datatype Session = Session(token: Claims, usuario: Claims)

  const LoginFailed := "Error en inicio de sesión"

  /** The token payload for a stored user: id, name, email and role — never the hash. */
  function PayloadOf(d: Doc<User>): (c: Claims)
    ensures c.id == d.id && c.nombre == d.val.nombre && c.email == d.val.email && c.rol == d.val.rol
  {
    Claims(d.id, d.val.nombre, d.val.email, d.val.rol)
  }

  /**
   `login`: an unknown email and a wrong password give the very same 401;
   otherwise the token carries exactly the user's id, name, email and role.
   */
  function Login(s: Store, email: string, password: string): (r: Response<Session>)
    ensures r.Failure? ==> r == Failure(Unauthorized, LoginFailed)
    ensures r.Success? <==> UserWithEmail(s.users, email).Some?
                            && Matches(password, s.users[UserWithEmail(s.users, email).value].val.password)
    ensures r.Success? ==> var d := s.users[UserWithEmail(s.users, email).value];
                           r == Success(Ok, Session(PayloadOf(d), PayloadOf(d)))
  {
    match UserWithEmail(s.users, email)
    case None => Failure(Unauthorized, LoginFailed)
    case Some(i) =>
      if !Matches(password, s.users[i].val.password) then Failure(Unauthorized, LoginFailed)
      else Success(Ok, Session(PayloadOf(s.users[i]), PayloadOf(s.users[i])))
  }

  /** A login that fails cannot tell an unknown email from a wrong password. */
  lemma LoginFailuresAlike(s: Store, email: string, password: string, email': string, password': string)
    requires UserWithEmail(s.users, email).None?
    requires UserWithEmail(s.users, email').Some?
    requires !Matches(password', s.users[UserWithEmail(s.users, email').value].val.password)
    ensures Login(s, email, password) == Login(s, email', password')
  {
  }

  /** A user who has just signed up can log in with that password, as that user. */
  lemma CreateThenLogin(s: Store, req: UserInput, newId: Id)
    requires Indexed(s)
    requires Create(s, req, newId).resp.Success?
    ensures var l := Login(Create(s, req, newId).store, req.email, req.password.value);
            && l.Success?
            && l.body.token == Claims(newId, req.nombre, req.email, ParseRole(req.rol).value)
  {
    var t := Create(s, req, newId).store.users;
    assert t[|s.users|].val.email == req.email;
    assert forall j :: 0 <= j < |s.users| ==> t[j] == s.users[j];
    assert UserWithEmail(t, req.email) == Some(|s.users|);
    MatchesOnlyOwnHash(req.password.value, req.password.value);
  }

  /** The token a login hands out opens the user's own record, and no other non-admin one. */
  lemma LoginThenOwnAccess(s: Store, email: string, password: string, other: Id)
    requires DistinctIds(s.users)
    requires Login(s, email, password).Success?
    ensures var c := Login(s, email, password).body.token;
            && GetById(s, c, c.id).Success?
            && GetById(s, c, c.id).body == Contact(c.nombre, c.email)
            && (c.rol == Client && other != c.id ==> GetById(s, c, other).status == Forbidden)
  {
    var i := UserWithEmail(s.users, email).value;
    assert IndexOf(s.users, s.users[i].id) == Some(i);
  }

  /**
   After a password change the new password logs in, and another one logs in
   exactly when it agrees with the new one on the 72 characters bcrypt reads.
   */
  lemma UpdateThenLogin(s: Store, caller: Claims, id: Id, pw: string, former: string)
    requires UniqueEmails(s.users) && DistinctIds(s.users)
    requires pw != ""
    requires Update(s, caller, id, UserPatch("", "", pw)).resp.Success?
    ensures var s' := Update(s, caller, id, UserPatch("", "", pw)).store;
            var e := Get(s.users, id).value.email;
            && Login(s', e, pw).Success?
            && (Login(s', e, former).Success? <==> Significant(former) == Significant(pw))
  {
    var i := IndexOf(s.users, id).value;
    var t := Update(s, caller, id, UserPatch("", "", pw)).store.users;
    var e := s.users[i].val.email;
    assert t[i].val.email == e;
    UniqueEmailsSet(s.users, i, t[i].val);
    assert UserWithEmail(t, e) == Some(i);
    MatchesOnlyOwnHash(pw, former);
  }

  /** `logout`: the body's email must be the caller's (403), and belong to a user (404). */
  function Logout(s: Store, caller: Claims, email: string): (r: Response<()>)
    ensures caller.email != email ==> r.Failure? && r.status == Forbidden
    ensures caller.email == email && UserWithEmail(s.users, email).None? ==> r.Failure? && r.status == NotFound
    ensures r.Success? <==> caller.email == email && UserWithEmail(s.users, email).Some?
  {
    if caller.email != email then Failure(Forbidden, "Acceso denegado")
    else if UserWithEmail(s.users, email).None? then Failure(NotFound, "Error al cerrar sesión")
    else Success(Ok, ())
  }

  /** The token of a successful login is accepted by logout with the same email. */
  lemma LoginThenLogout(s: Store, email: string, password: string)
    requires Login(s, email, password).Success?
    ensures Logout(s, Login(s, email, password).body.token, email).Success?
  {
  }
}
