/**
 Request values and response shapes shared by every controller.

 A request body is JSON; the controllers test its fields with JavaScript
 truthiness (`if (!x)`) and with `isNaN` / `Number(...)`. `Json` keeps just
 enough of a JSON value for those two tests to be computed exactly for
 scalars. Prices and quantities are integers (think cents).
 */
module Values {

  datatype Option<+T> = None | Some(value: T) {
    function GetOr(default: T): T {
      match this
      case Some(v) => v
      case None => default
    }
  }

  /** A JSON value as it arrives in a request body; `Undefined` is an absent field. */
  datatype Json =
    | Undefined
    | Null
    | Bool(b: bool)
    | Num(n: int)
    | Text(s: string)
    | Arr(items: seq<Json>)
    | Obj(fields: seq<(string, Json)>)

  /** JavaScript truthiness: `undefined`, `null`, `false`, `0` and `""` are falsy. */
  predicate Truthy(v: Json) {
    match v
    case Undefined => false
    case Null => false
    case Bool(b) => b
    case Num(n) => n != 0
    case Text(s) => |s| > 0
    case Arr(_) => true
    case Obj(_) => true
  }

  predicate IsDigit(c: char) {
    '0' <= c <= '9'
  }

  predicate AllDigits(s: string) {
    forall i :: 0 <= i < |s| ==> IsDigit(s[i])
  }

  /** Value of a non-empty run of decimal digits, read left to right. */
  function DigitsValue(s: string): (n: nat)
    requires AllDigits(s)
    decreases |s|
  {
    if |s| == 0 then 0
    else DigitsValue(s[..|s| - 1]) * 10 + (s[|s| - 1] as int - '0' as int)
  }

  /** Decimal rendering of a natural number, the inverse of `DigitsValue`. */
  function ShowNat(n: nat): (s: string)
    ensures |s| > 0 && AllDigits(s)
  {
    var d := [('0' as int + n % 10) as char];
    if n < 10 then d else ShowNat(n / 10) + d
  }

  /**
   `Number(s)` for a string: the empty string is 0, an optional sign followed
   by one or more decimal digits is that integer, anything else is NaN (None).
   */
  function ParseNumber(s: string): (r: Option<int>)
    ensures |s| == 0 ==> r == Some(0)
    ensures |s| > 0 && AllDigits(s) ==> r == Some(DigitsValue(s))
    ensures r.Some? && |s| > 0 && !AllDigits(s) ==> (s[0] == '-' || s[0] == '+') && |s| > 1
  {
    if |s| == 0 then Some(0)
    else if AllDigits(s) then Some(DigitsValue(s))
    else if (s[0] == '-' || s[0] == '+') && |s| > 1 && AllDigits(s[1..]) then
      var m: int := DigitsValue(s[1..]);
      Some(if s[0] == '-' then -m else m)
    else None
  }

  /**
   `Number(v)`, None standing for NaN. Arrays and objects are taken as NaN
   (JavaScript turns `[]` into 0 and a one-element array into the number of its
   string form; no controller relies on that).
   */
  function ToNumber(v: Json): Option<int> {
    match v
    case Undefined => None
    case Null => Some(0)
    case Bool(b) => Some(if b then 1 else 0)
    case Num(n) => Some(n)
    case Text(s) => ParseNumber(s)
    case Arr(_) => None
    case Obj(_) => None
  }

  /** `isNaN(v)`. */
  predicate IsNaN(v: Json) {
    ToNumber(v).None?
  }

  /** Reading back a rendered natural number gives the number again. */
  lemma {:induction false} DigitsOfShow(n: nat)
    ensures DigitsValue(ShowNat(n)) == n
  {
    var d := [('0' as int + n % 10) as char];
    if n >= 10 {
      var s := ShowNat(n / 10) + d;
      assert s[..|s| - 1] == ShowNat(n / 10);
      DigitsOfShow(n / 10);
    }
  }

  /** A decimal text in a request is read by `Number` as the integer it spells. */
  lemma TextNumberRoundTrip(n: int)
    ensures ToNumber(Text(if n < 0 then "-" + ShowNat(-n) else ShowNat(n))) == Some(n)
  {
    if n < 0 {
      var s := "-" + ShowNat(-n);
      assert s[1..] == ShowNat(-n);
      assert !IsDigit(s[0]);
      DigitsOfShow(-n);
    } else {
      DigitsOfShow(n);
    }
  }

  /** HTTP statuses the controllers answer with. */
  datatype Status = Ok | Created | BadRequest | Unauthorized | Forbidden | NotFound | ServerError {
    function Code(): int {
      match this
      case Ok => 200
      case Created => 201
      case BadRequest => 400
      case Unauthorized => 401
      case Forbidden => 403
      case NotFound => 404
      case ServerError => 500
    }
  }

  /** A JSON response: a success body, or an error status with its message. */
  datatype Response<+T> = Success(status: Status, body: T) | Failure(status: Status, message: string) {
    function Code(): int {
      status.Code()
    }
  }
}
