/** The data the external template store hands to the exporter, as plain values:
    a field value is a string, an integer, a boolean, `None`, a list or a nested
    record (a dataclass instance), and a template instance is its ordered list of
    fields. The Python conventions the exporter relies on — truthiness,
    `getattr` with and without a default, and `str()` — are defined here. */
module Values {
  import opened Text

  datatype Value =
    | Str(s: string)
    | Int(i: int)
    | Bool(b: bool)
    | Null
    | List(items: seq<Value>)
    | Record(fields: seq<Field>)

  datatype Field = Field(name: string, value: Value)

  /** One named instance of a template class, in the store's own order. */
  datatype Entry = Entry(dataname: string, fields: seq<Field>)

  /** Python truthiness: empty strings and lists, zero, `False` and `None` are
      false; a dataclass instance is always true. */
  predicate Truthy(v: Value) {
    match v
    case Str(s) => s != []
    case Int(i) => i != 0
    case Bool(b) => b
    case Null => false
    case List(items) => items != []
    case Record(_) => true
  }

  /** `getattr(o, name, None)`: the value of the first field called `name`, or
      `None` when the instance has no such attribute. */
  function Lookup(fields: seq<Field>, name: string): (r: Option<Value>)
    ensures r.Some? <==> exists i :: 0 <= i < |fields| && fields[i].name == name
    ensures r.Some? ==> exists i :: 0 <= i < |fields| && fields[i].name == name && fields[i].value == r.value
  {
    if fields == [] then None
    else if fields[0].name == name then Some(fields[0].value)
    else
      var r := Lookup(fields[1..], name);
      assert forall i :: 0 < i < |fields| ==> fields[i] == fields[1..][i - 1];
      r
  }

  datatype Option<+T> = None | Some(value: T)

  /** `str(v)` as an f-string prints it. Lists and records use a `repr`-like
      form in which strings are quoted without further escaping. */
  function Show(v: Value): (r: string)
    ensures v.Str? ==> r == v.s
    decreases v, 1
  {
    match v
    case Str(s) => s
    case Int(i) => IntToString(i)
    case Bool(b) => if b then "True" else "False"
    case Null => "None"
    case List(items) => "[" + ShowItems(items) + "]"
    case Record(fields) => "{" + ShowFields(fields) + "}"
  }

  function Repr(v: Value): string
    decreases v, 2
  {
    if v.Str? then "'" + v.s + "'" else Show(v)
  }

  function ShowItems(items: seq<Value>): string
    decreases items
  {
    if items == [] then ""
    else if |items| == 1 then Repr(items[0])
    else Repr(items[0]) + ", " + ShowItems(items[1..])
  }

  function ShowFields(fields: seq<Field>): string
    decreases fields
  {
    if fields == [] then ""
    else
      var head := "'" + fields[0].name + "': " + Repr(fields[0].value);
      if |fields| == 1 then head else head + ", " + ShowFields(fields[1..])
  }
}
