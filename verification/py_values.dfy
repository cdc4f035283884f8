/**
  The decoded JSON value the Markdown renderers receive (what `json.loads`
  returns), and the handful of Python operations they apply to it: `v.get`,
  a `for` loop over `v`, `key in v` and `v[key]`. Each either yields a value
  or raises the exception Python raises, here an `Err`.
*/
module PyValues {
  import PyStr

  datatype Option<+T> = None | Some(value: T)

  /** A decoded JSON document. JSON numbers are modelled as integers. Python
      dicts keep insertion order; the renderers only look keys up, so a
      `map` suffices. */
  datatype Json =
    | Null
    | Bool(b: bool)
    | Num(n: int)
    | Str(s: string)
    | Arr(items: seq<Json>)
    | Obj(fields: map<string, Json>)

  /** The exceptions the renderers can raise on a badly shaped input. */
  datatype PyError =
    | NoAttributeGet(typeName: string)       // AttributeError: '<t>' object has no attribute 'get'
    | NotIterable(typeName: string)          // TypeError: '<t>' object is not iterable
    | NotContainer(typeName: string)         // TypeError: argument of type '<t>' is not iterable
    | NotSubscriptable(typeName: string)     // TypeError: '<t>' object is not subscriptable
    | IndicesMustBeIntegers(typeName: string) // TypeError: <t> indices must be integers
    | KeyError(key: string)

  datatype Result<+T> = Ok(value: T) | Err(error: PyError) {
    predicate IsFailure() {
      Err?
    }

    function PropagateFailure<U>(): Result<U>
      requires Err?
    {
      Err(error)
    }

    function Extract(): T
      requires Ok?
    {
      value
    }
  }

  /** `type(v).__name__` */
  function TypeName(v: Json): string
  {
    match v
    case Null => "NoneType"
    case Bool(_) => "bool"
    case Num(_) => "int"
    case Str(_) => "str"
    case Arr(_) => "list"
    case Obj(_) => "dict"
  }

  /** The value of `key` in a dict, or `default` when the key is absent. */
  function Field(m: map<string, Json>, key: string, default: Json): Json
  {
    if key in m then m[key] else default
  }

  /** `v.get(key, default)`: only a dict has a `get` method. */
  function Get(v: Json, key: string, default: Json): (r: Result<Json>)
    ensures r.Ok? <==> v.Obj?
    ensures v.Obj? && key in v.fields ==> r == Ok(v.fields[key])
    ensures v.Obj? && key !in v.fields ==> r == Ok(default)
    ensures !v.Obj? ==> r == Err(NoAttributeGet(TypeName(v)))
  {
    match v
    case Obj(m) => Ok(Field(m, key, default))
    case _ => Err(NoAttributeGet(TypeName(v)))
  }

  /** The values a `for` loop over `v` hands to its body. A list yields its
      elements and a str its one-character strs. A dict yields its keys,
      which are strs; both renderers call `.get` on each item first, so a
      non-empty dict fails with that AttributeError before anything else
      happens, and it is reported here because a `map` has no key order. */
  function Iterate(v: Json): (r: Result<seq<Json>>)
    ensures r.Ok? <==> v.Arr? || v.Str? || v == Obj(map[])
    ensures v.Arr? ==> r == Ok(v.items)
    ensures v.Str? ==> r.Ok? && |r.value| == |v.s|
                       && forall i :: 0 <= i < |v.s| ==> r.value[i] == Str([v.s[i]])
    ensures v.Obj? ==> r.Ok? ==> r.value == []
    ensures v.Obj? && v.fields != map[] ==> r == Err(NoAttributeGet("str"))
    ensures (v.Null? || v.Bool? || v.Num?) ==> r == Err(NotIterable(TypeName(v)))
  {
    match v
    case Arr(xs) => Ok(xs)
    case Str(s) => Ok(seq(|s|, i requires 0 <= i < |s| => Str([s[i]])))
    case Obj(m) => if m == map[] then Ok([]) else Err(NoAttributeGet("str"))
    case _ => Err(NotIterable(TypeName(v)))
  }

  /** `key in v` for a str `key`: a key of a dict, an element of a list
      (only an equal str compares equal to a str), a substring of a str. */
  function Contains(v: Json, key: string): (r: Result<bool>)
    ensures r.Ok? <==> v.Obj? || v.Arr? || v.Str?
    ensures v.Obj? ==> r == Ok(key in v.fields)
    ensures v.Arr? ==> r == Ok(Str(key) in v.items)
    ensures v.Str? ==> r.Ok? && (r.value <==> PyStr.IsInfix(key, v.s))
    ensures !r.Ok? ==> r == Err(NotContainer(TypeName(v)))
  {
    match v
    case Obj(m) => Ok(key in m)
    case Arr(xs) => Ok(Str(key) in xs)
    case Str(s) => Ok(PyStr.HasInfix(key, s))
    case _ => Err(NotContainer(TypeName(v)))
  }

  /** `v[key]` for a str `key`. */
  function Subscript(v: Json, key: string): (r: Result<Json>)
    ensures r.Ok? <==> v.Obj? && key in v.fields
    ensures r.Ok? ==> r.value == v.fields[key]
    ensures v.Obj? && key !in v.fields ==> r == Err(KeyError(key))
    ensures v.Arr? || v.Str? ==> r == Err(IndicesMustBeIntegers(if v.Arr? then "list" else "string"))
  {
    match v
    case Obj(m) => if key in m then Ok(m[key]) else Err(KeyError(key))
    case Arr(_) => Err(IndicesMustBeIntegers("list"))
    case Str(_) => Err(IndicesMustBeIntegers("string"))
    case _ => Err(NotSubscriptable(TypeName(v)))
  }

  /** The guard `if key in v: ... v[key]`: once `in` has found the key, the
      subscript succeeds on a dict, and on a str or list it raises, since
      their indices must be integers. */
  lemma GuardedSubscript(v: Json, key: string)
    requires Contains(v, key) == Ok(true)
    ensures Subscript(v, key).Ok? <==> v.Obj?
    ensures v.Obj? ==> Subscript(v, key) == Ok(v.fields[key])
  {
  }

  /** What an f-string replacement field `{v}` inserts: a str inserts itself;
      any other value inserts `str(v)`, which `show` stands for. */
  function Text(v: Json, show: Json -> string): string
  {
    if v.Str? then v.s else show(v)
  }
}
