/** The slice of Python's data model the digest scripts rely on: decoded
    JSON values, dict lookup, truthiness, `==` against literals, `str()`
    and `float()`, plus the datetime arithmetic they do. Library routines
    whose behaviour is not spelled out here (float parsing of text, float
    printing, `datetime.fromisoformat`, `strftime`) are fields of `Host`,
    a parameter of every operation that needs them. */
module Python {
  import opened Text

  datatype Option<+T> = None | Some(value: T)

  /** Either a value, or an exception that escapes the function. */
  datatype Outcome<+T> = Done(value: T) | Raised {
    predicate IsFailure() {
      Raised?
    }

    function PropagateFailure<U>(): Outcome<U>
      requires Raised?
    {
      Raised
    }

    function Extract(): T
      requires Done?
    {
      value
    }
  }

  /** A decoded JSON value. `Dict` keeps insertion order, as a Python
      dict does. */
  datatype Value =
    | Null
    | Bool(b: bool)
    | Int(i: int)
    | Float(x: real)
    | Str(s: string)
    | List(items: seq<Value>)
    | Dict(entries: seq<(string, Value)>)

  /** A dict-shaped row, in insertion order. */
  type Row = seq<(string, Value)>

  /** A datetime: the wall-clock reading in microseconds since
      1970-01-01T00:00 of that wall clock, and the UTC offset in
      microseconds when the value is timezone-aware. */
  datatype DateTime = DateTime(wall: int, offset: Option<int>)

  const MicrosPerMinute: int := 60_000_000
  const MicrosPerDay: int := 86_400_000_000

  /** The library routines the model leaves abstract. */
  datatype Host = Host(
    parseFloat: string -> Option<real>,   // float(s) for a str; None where it raises
    floatText: real -> string,            // str(x) for a float
    containerText: Value -> string,       // str(v) for a list or dict
    fromIso: string -> Option<DateTime>,  // datetime.fromisoformat(s); None where it raises
    utcStamp: int -> string,              // strftime('%Y-%m-%d %H:%MZ') of a UTC instant
    nyMonthDay: DateTime -> string)       // astimezone(America/New_York).strftime('%b %d')

  /** The instant a datetime denotes, in UTC microseconds; a naive value
      is read as UTC (`replace(tzinfo=timezone.utc)`). */
  function UtcMicros(d: DateTime): int {
    match d.offset
    case None => d.wall
    case Some(off) => d.wall - off
  }

  /** `d.date()` as a day number: the date on the datetime's own wall
      clock, not converted to UTC. */
  function DayOf(d: DateTime): int {
    d.wall / MicrosPerDay
  }

  /** `bool(v)` */
  predicate Truthy(v: Value) {
    match v
    case Null => false
    case Bool(b) => b
    case Int(i) => i != 0
    case Float(x) => x != 0.0
    case Str(s) => s != []
    case List(xs) => xs != []
    case Dict(es) => es != []
  }

  /** The numeric value of a bool, int or float. */
  function Numeric(v: Value): Option<real> {
    match v
    case Bool(b) => Some(if b then 1.0 else 0.0)
    case Int(i) => Some(i as real)
    case Float(x) => Some(x)
    case _ => None
  }

  /** `a == b` where `b` is a literal (None, a bool, a number or a str):
      numbers and bools compare by value, so `1 == True`. */
  predicate EqLiteral(a: Value, b: Value) {
    if Numeric(a).Some? && Numeric(b).Some? then Numeric(a) == Numeric(b)
    else match (a, b)
      case (Null, Null) => true
      case (Str(s), Str(t)) => s == t
      case _ => false
  }

  /** `v in (lits...)` */
  predicate InLiterals(v: Value, lits: seq<Value>) {
    lits != [] && (EqLiteral(v, lits[0]) || InLiterals(v, lits[1..]))
  }

  predicate HasKey(d: Row, k: string) {
    exists i :: 0 <= i < |d| && d[i].0 == k
  }

  /** `d.get(k)`: the value under `k`, or None when the key is absent. */
  function Get(d: Row, k: string): (r: Option<Value>)
    ensures r.Some? <==> HasKey(d, k)
    ensures r.Some? ==> (k, r.value) in d
  {
    if d == [] then None
    else if d[0].0 == k then Some(d[0].1)
    else Get(d[1..], k)
  }

  /** `d.get(k, default)` */
  function GetOr(d: Row, k: string, default: Value): Value {
    match Get(d, k)
    case Some(v) => v
    case None => default
  }

  /** `str(v)` */
  function StrOf(h: Host, v: Value): string {
    match v
    case Null => "None"
    case Bool(b) => if b then "True" else "False"
    case Int(i) => IntText(i)
    case Float(x) => h.floatText(x)
    case Str(s) => s
    case List(_) => h.containerText(v)
    case Dict(_) => h.containerText(v)
  }

  /** `float(v)`, None where it raises (None, lists, dicts and text that
      does not parse). */
  function FloatOf(h: Host, v: Value): Option<real> {
    match v
    case Str(s) => h.parseFloat(s)
    case Null => None
    case List(_) => None
    case Dict(_) => None
    case _ => Numeric(v)
  }

  /** `min(a, b)` */
  function Min(a: int, b: int): int {
    if a <= b then a else b
  }

  /** `max(a, b)` */
  function Max(a: int, b: int): int {
    if a <= b then b else a
  }

  /** Python's `x // y` for a positive divisor, which floors. */
  function FloorDiv(x: int, y: int): (q: int)
    requires y > 0
    ensures q * y <= x < (q + 1) * y
  {
    x / y
  }

  /** `int(x)` for a float: truncation toward zero. */
  function Trunc(x: real): (n: int)
    ensures 0.0 <= x ==> n as real <= x < n as real + 1.0
    ensures x < 0.0 ==> n as real - 1.0 < x <= n as real
  {
    if x >= 0.0 then x.Floor else -((-x).Floor)
  }
}
