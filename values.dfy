/**
 * The Python values the core passes around: the JSON-shaped payloads of
 * commands and updates, members of the `str` enums, dataclass instances
 * (records described by a field schema), and the handful of Python
 * semantics the core relies on (truthiness, hashability, integer
 * comparison, list indexing).
 */
module Values {

  datatype Option<+T> = None | Some(value: T)

  /** The exceptions the core can raise; the text of `str(e)` is not modelled. */
  datatype Failure =
    | KeyError(key: Value)
    | TypeError
    | ValueError
    | IndexError

  datatype Result<+T> = Ok(value: T) | Err(failure: Failure)

  /** An `Enum` subclass; every enum of the core is a `str, Enum`, so its member values are strings. */
  datatype EnumDef = EnumDef(name: string, values: seq<string>)

  /** A type annotation as `from_dict` inspects it. */
  datatype TypeHint =
    | EnumHint(enumDef: EnumDef)
    | RecordHint(schema: Schema)   // a nested `Serializable` dataclass
    | OtherHint                    // str, int, Dict[str, Any], Optional[...], ...

  /** A dataclass field: its name, annotation, `non_serializable` metadata flag, default, and repr/compare flags. */
  datatype FieldDesc = FieldDesc(
    name: string,
    hint: TypeHint,
    nonSerializable: bool,
    default: Option<Value>,
    repr: bool,
    compare: bool)

  /** A `Serializable` dataclass: its fields in declaration order. */
  datatype Schema = Schema(name: string, fields: seq<FieldDesc>)

  datatype Value =
    | Null
    | Bool(b: bool)
    | Int(i: int)
    | Str(s: string)
    | List(items: seq<Value>)
    | Dict(entries: map<string, Value>)
    | Member(enumDef: EnumDef, value: string)     // an enum member, named by its value
    | Object(schema: Schema, values: seq<Value>)   // an instance of a `Serializable` dataclass, one value per field

  /** Python truthiness (`if x:`). A `str` enum member is truthy iff its value is non-empty; a `Serializable` instance always is. */
  predicate Truthy(v: Value)
  {
    match v
    case Null => false
    case Bool(b) => b
    case Int(i) => i != 0
    case Str(s) => s != ""
    case List(items) => items != []
    case Dict(entries) => entries != map[]
    case Member(_, s) => s != ""
    case Object(_, _) => true
  }

  /** Whether the value can be a dict key: lists, dicts and (mutable, `eq=True`) `Serializable` instances cannot. */
  predicate Hashable(v: Value)
  {
    !(v.List? || v.Dict? || v.Object?)
  }

  /** The integer a value compares as (`bool` is a subclass of `int`); `None` where `<`/`<=` raise TypeError. */
  function AsInt(v: Value): (r: Option<int>)
    ensures r.Some? <==> (v.Int? || v.Bool?)
    ensures v.Int? ==> r == Some(v.i)
  {
    match v
    case Int(i) => Some(i)
    case Bool(b) => Some(if b then 1 else 0)
    case _ => None
  }

  /** Python list indexing: the position `xs[i]` denotes in a list of length `n`, negative indices counting from the end. */
  function PyIndex(i: int, n: nat): (r: Option<nat>)
    ensures r.Some? <==> -(n as int) <= i < n
    ensures r.Some? ==> r.value < n && (r.value == i || r.value == i + n)
  {
    if 0 <= i < n then Some(i) else if -(n as int) <= i < 0 then Some(i + n) else None
  }

  /** `d.get(key, default)`. */
  function Get(d: map<string, Value>, key: string, default: Value): Value
  {
    if key in d then d[key] else default
  }

  /** Decimal digits of a natural number, as `str(n)` and f-strings print it. */
  function NatToString(n: nat): string
    decreases n
  {
    var digit := ["0", "1", "2", "3", "4", "5", "6", "7", "8", "9"][n % 10];
    if n < 10 then digit else NatToString(n / 10) + digit
  }

  /** The first index holding `x` (Python `list.index`). */
  function IndexOf<T(==)>(xs: seq<T>, x: T): (r: nat)
    requires x in xs
    ensures r < |xs| && xs[r] == x
    ensures forall j :: 0 <= j < r ==> xs[j] != x
  {
    if xs[0] == x then 0 else 1 + IndexOf(xs[1..], x)
  }

  /** `list.remove(x)`: drops the first occurrence only. */
  function RemoveFirst<T(==)>(xs: seq<T>, x: T): (r: seq<T>)
    requires x in xs
    ensures |r| == |xs| - 1
    ensures r == xs[..IndexOf(xs, x)] + xs[IndexOf(xs, x) + 1..]
  {
    if xs[0] == x then xs[1..] else [xs[0]] + RemoveFirst(xs[1..], x)
  }

  /** `list.remove(x)` takes exactly one occurrence of `x` out of the list's contents. */
  lemma {:induction false} RemoveFirstMultiset<T>(xs: seq<T>, x: T)
    requires x in xs
    ensures multiset(RemoveFirst(xs, x)) == multiset(xs) - multiset{x}
  {
    assert xs == [xs[0]] + xs[1..];
    if xs[0] != x {
      RemoveFirstMultiset(xs[1..], x);
    }
  }
}
