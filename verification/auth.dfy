/**
 Who is asking, and what they may do.

 The bcrypt hash and the JWT signature are library calls outside this model:
 `Hash` is a stand-in that keeps bcrypt's one visible rule, that only the
 first 72 bytes of a password count, and a token is represented by the
 claims it carries.
 */
module Auth {
  import opened Values
  import opened Collection
  import opened Records

  /** The decoded token payload the middleware puts in `req.user`. */
  datatype Claims = Claims(id: Id, nombre: string, email: string, rol: Role)

  /**
   What the header verification hands back. `Rejected` is a falsy result;
   `ErrorText` is the error string that verification returns on failure,
   which is truthy and so passes an `if (!verified)` check.
   */
  datatype Verification = Rejected | Decoded(claims: Claims) | ErrorText(message: string)

  /** The `authorization` header: absent, or present with its verification result. */
  datatype AuthHeader = NoHeader | Bearer(verified: Verification)

  /** bcrypt hashes at most this many bytes of a password; here one character stands for one byte. */
  const BcryptLimit: nat := 72

  /** The part of a password that bcrypt reads: its first 72 characters. */
  function Significant(pw: string): (r: string)
    ensures |r| <= BcryptLimit && |r| <= |pw| && r == pw[..|r|]
    ensures |pw| <= BcryptLimit <==> r == pw
  {
    if |pw| <= BcryptLimit then pw else pw[..BcryptLimit]
  }

  /** Stand-in for `bcrypt.hash`. */
  function Hash(pw: string): string {
    "$2b$" + Significant(pw)
  }

  /** Stand-in for `bcrypt.compare`. */
  predicate Matches(pw: string, hash: string) {
    hash == Hash(pw)
  }

  /**
   A password matches its own hash; another one matches exactly when it
   agrees on the first 72 characters, so among passwords of at most 72
   characters only the password itself matches.
   */
  lemma MatchesOnlyOwnHash(pw: string, other: string)
    ensures Matches(pw, Hash(pw))
    ensures Matches(other, Hash(pw)) <==> Significant(other) == Significant(pw)
    ensures |pw| <= BcryptLimit && |other| <= BcryptLimit ==> (Matches(other, Hash(pw)) <==> other == pw)
  {
    if Matches(other, Hash(pw)) {
      assert Hash(other)[4..] == Significant(other);
      assert Hash(pw)[4..] == Significant(pw);
    }
  }

  /** Two passwords that differ only after the 72nd character match the same hash. */
  lemma LongPasswordsCollide(pw: string, x: char, y: char)
    requires |pw| == BcryptLimit && x != y
    ensures pw + [x] != pw + [y]
    ensures Matches(pw + [y], Hash(pw + [x]))
  {
    assert (pw + [x])[BcryptLimit] == x && (pw + [y])[BcryptLimit] == y;
    assert (pw + [x])[..BcryptLimit] == pw == (pw + [y])[..BcryptLimit];
  }

  /** `req.user.rol === "ADMIN"`. */
  predicate IsAdmin(c: Claims) {
    c.rol == Admin
  }

  /** `req.user.id === target || req.user.rol === "ADMIN"`. */
  predicate OwnerOrAdmin(c: Claims, target: Id) {
    c.id == target || IsAdmin(c)
  }

  /** `cart.usuario.toString() === req.user.id`: owner only, no admin override. */
  predicate OwnsCart(c: Claims, cart: Cart) {
    cart.usuario == c.id
  }

  /**
   The admin gate of product creation: 401 without a header or with a falsy
   verification, 403 when the role is not ADMIN (an error string has no role).
   Returns the claims when the caller may proceed.
   */
  function CreateGate(h: AuthHeader): (r: Response<Claims>)
    ensures r.Success? <==> h.Bearer? && h.verified.Decoded? && IsAdmin(h.verified.claims)
    ensures r.Success? ==> r.body == h.verified.claims && r.status == Ok
    ensures r.Failure? && (h.NoHeader? || h.verified.Rejected?) ==> r.status == Unauthorized
    ensures r.Failure? && h.Bearer? && !h.verified.Rejected? ==> r.status == Forbidden
  {
    match h
    case NoHeader => Failure(Unauthorized, "Unauthorized")
    case Bearer(Rejected) => Failure(Unauthorized, "Unauthorized")
    case Bearer(ErrorText(_)) => Failure(Forbidden, "Access denied")
    case Bearer(Decoded(c)) =>
      if IsAdmin(c) then Success(Ok, c) else Failure(Forbidden, "Access denied")
  }

  /** The admin gate of product update and delete: every refusal is a 403. */
  function EditGate(h: AuthHeader): (r: Response<Claims>)
    ensures r.Success? <==> h.Bearer? && h.verified.Decoded? && IsAdmin(h.verified.claims)
    ensures r.Success? ==> r.body == h.verified.claims && r.status == Ok
    ensures r.Failure? ==> r.status == Forbidden
  {
    match h
    case Bearer(Decoded(c)) =>
      if IsAdmin(c) then Success(Ok, c) else Failure(Forbidden, "Unauthorized")
    case _ => Failure(Forbidden, "Unauthorized")
  }

  /** The two gates let through exactly the same callers; they differ only in the refusal status. */
  lemma GatesAgree(h: AuthHeader)
    ensures CreateGate(h).Success? <==> EditGate(h).Success?
    ensures CreateGate(h).Failure? ==> CreateGate(h).status in {Unauthorized, Forbidden}
  {
  }
}
