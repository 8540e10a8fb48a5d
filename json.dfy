/** The asset header as a JSON tree, and the reads the importer performs on it.

    The importer holds the header in a non-const `nlohmann::json`.  On a
    non-const value, `operator[]` with a key that is absent inserts `null`
    and returns it, and `operator[]` with an index past the end of an array
    extends the array with `null`s; a `null` value indexed either way first
    turns into an empty object or array.  Indexing any other kind of value
    throws a type error, and so does converting a value of the wrong kind to
    a number or a boolean.  The functions below give what each read returns;
    the insertions themselves are not kept (see README). */
module JsonValue {
  import opened Failures
  import opened Bytes

  /** A parsed JSON value.  A number carries the two readings the parser
      gives it: the integer nlohmann's integer conversion returns (a number
      with a fractional part truncated toward zero) and the single-precision
      bit pattern its float conversion returns. */
  datatype Json =
    | Null
    | Bool(b: bool)
    | Num(asInt: int, asF32: U32)
    | Str(s: string)
    | Arr(items: seq<Json>)
    | Obj(fields: map<string, Json>)

  /** `j.contains(key)`: false for anything that is not an object. */
  predicate Contains(j: Json, key: string)
  {
    j.Obj? && key in j.fields
  }

  /** `j[key]` on a non-const value. */
  function Member(j: Json, key: string): (r: Result<Json>)
    ensures r.Ok? <==> j.Obj? || j.Null?
    ensures Contains(j, key) ==> r == Ok(j.fields[key])
    ensures r.Ok? && !Contains(j, key) ==> r.value == Null
  {
    match j
    case Obj(fields) => if key in fields then Ok(fields[key]) else Ok(Null)
    case Null => Ok(Null)
    case _ => Err(TypeError)
  }

  /** `j[i]` on a non-const value. */
  function Element(j: Json, i: nat): (r: Result<Json>)
    ensures r.Ok? <==> j.Arr? || j.Null?
    ensures j.Arr? && i < |j.items| ==> r == Ok(j.items[i])
    ensures r.Ok? && !(j.Arr? && i < |j.items|) ==> r.value == Null
  {
    match j
    case Arr(items) => if i < |items| then Ok(items[i]) else Ok(Null)
    case Null => Ok(Null)
    case _ => Err(TypeError)
  }

  /** `j.size()`: 0 for null, the element or member count of an array or
      object, and 1 for every scalar. */
  function Size(j: Json): nat
  {
    match j
    case Null => 0
    case Arr(items) => |items|
    case Obj(fields) => |fields|
    case _ => 1
  }

  /** The value nlohmann's arithmetic conversion gives: numbers and booleans
      convert, everything else throws. */
  function Arithmetic(j: Json): (r: Result<int>)
    ensures r.Ok? <==> j.Num? || j.Bool?
  {
    match j
    case Num(i, _) => Ok(i)
    case Bool(b) => Ok(if b then 1 else 0)
    case _ => Err(TypeError)
  }

  /** Conversion to a C++ `int`: the arithmetic value wrapped to 32 bits. */
  function ToInt32(j: Json): (r: Result<int>)
    ensures r.Ok? <==> j.Num? || j.Bool?
    ensures r.Ok? ==> -0x8000_0000 <= r.value < 0x8000_0000
    ensures r.Ok? ==> (r.value - Arithmetic(j).value) % 0x1_0000_0000 == 0
    ensures r.Ok? && -0x8000_0000 <= Arithmetic(j).value < 0x8000_0000 ==> r.value == Arithmetic(j).value
  {
    var i :- Arithmetic(j);
    var w := i % 0x1_0000_0000;
    Ok(if w < 0x8000_0000 then w else w - 0x1_0000_0000)
  }

  /** Conversion to `size_t`: the arithmetic value wrapped to 64 bits. */
  function ToSize(j: Json): (r: Result<nat>)
    ensures r.Ok? <==> j.Num? || j.Bool?
    ensures r.Ok? ==> r.value < 0x1_0000_0000_0000_0000
    ensures r.Ok? ==> (r.value - Arithmetic(j).value) % 0x1_0000_0000_0000_0000 == 0
    ensures r.Ok? && 0 <= Arithmetic(j).value < 0x1_0000_0000_0000_0000 ==> r.value == Arithmetic(j).value
  {
    var i :- Arithmetic(j);
    Ok(i % 0x1_0000_0000_0000_0000)
  }

  /** Conversion to `float`, as its bit pattern: a number gives the
      single-precision value the parser read, `true` gives 1.0f and `false` 0.0f. */
  function ToF32(j: Json): (r: Result<U32>)
    ensures r.Ok? <==> j.Num? || j.Bool?
    ensures j.Num? ==> r == Ok(j.asF32)
    ensures j.Bool? ==> r == Ok(if j.b then 0x3F80_0000 else 0)
  {
    match j
    case Num(_, f) => Ok(f)
    case Bool(b) => Ok(if b then 0x3F80_0000 else 0)
    case _ => Err(TypeError)
  }

  /** Conversion to `bool`: only a JSON boolean converts. */
  function ToBool(j: Json): (r: Result<bool>)
    ensures r.Ok? <==> j.Bool?
    ensures r.Ok? ==> r.value == j.b
  {
    if j.Bool? then Ok(j.b) else Err(TypeError)
  }
}
