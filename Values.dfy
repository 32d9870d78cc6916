/** The tree a YAML decoder hands back (None, strings, other scalars, lists, mappings)
    and the Python operations the compose tests apply to it, with the exceptions those
    operations raise on the wrong kind of value. */
module Values {
  import opened Outcomes
  import opened Text

  datatype Value =
    | Null                        // None
    | Str(s: string)              // a str
    | Scalar(kind: string, text: string)  // an int, float or bool: its type name and str() form
    | List(items: seq<Value>)     // a list
    | Dict(entries: seq<Entry>)   // a dict, in insertion order, with distinct keys

  datatype Entry = Entry(key: string, value: Value)

  /** The name Python's messages use for the value's type. */
  function TypeName(v: Value): string {
    match v
    case Null => "NoneType"
    case Str(_) => "str"
    case Scalar(kind, _) => kind
    case List(_) => "list"
    case Dict(_) => "dict"
  }

  /** The value stored under `key`, taking the first entry that carries it. */
  function Lookup(entries: seq<Entry>, key: string): (r: Option<Value>)
    decreases |entries|
    ensures r.Some? <==> exists i :: 0 <= i < |entries| && entries[i].key == key
    ensures r.Some? ==> exists i :: 0 <= i < |entries| && entries[i] == Entry(key, r.value)
  {
    if entries == [] then None
    else if entries[0].key == key then Some(entries[0].value)
    else
      var r := Lookup(entries[1..], key);
      assert forall i :: 1 <= i < |entries| ==> entries[i] == entries[1..][i - 1];
      r
  }

  /** The mapping has an entry under `key`. */
  predicate HasKey(v: Value, key: string) {
    v.Dict? && Lookup(v.entries, key).Some?
  }

  /** `key in v`: a key of a dict, an element of a list, a substring of a str; any other
      operand raises TypeError. */
  function In(key: string, v: Value): (r: Result<bool>)
    ensures v.Dict? ==> r == Ok(HasKey(v, key))
    ensures v.Str? ==> r == Ok(Contains(v.s, key))
    ensures v.List? ==> r == Ok(Str(key) in v.items)
    ensures r.Err? <==> v.Null? || v.Scalar?
  {
    match v
    case Dict(es) => Ok(Lookup(es, key).Some?)
    case List(items) => Ok(Str(key) in items)
    case Str(s) => Ok(Contains(s, key))
    case _ => Err("TypeError: argument of type '" + TypeName(v) + "' is not iterable")
  }

  /** `v[key]`: a dict lookup raising KeyError when the key is absent; a subscript of any
      other kind of value by a str raises TypeError. */
  function Index(v: Value, key: string): (r: Result<Value>)
    ensures r.Ok? <==> HasKey(v, key)
    ensures r.Ok? ==> exists i :: 0 <= i < |v.entries| && v.entries[i] == Entry(key, r.value)
  {
    if !v.Dict? then Err(SubscriptError(v))
    else match Lookup(v.entries, key)
      case Some(x) => Ok(x)
      case None => Err(KeyError(key))
  }

  /** The message of the KeyError a missing key raises. */
  function KeyError(key: string): string {
    "KeyError: '" + key + "'"
  }

  /** The TypeError a str subscript raises on a value that is not a mapping. */
  function SubscriptError(v: Value): string {
    match v
    case List(_) => "TypeError: list indices must be integers or slices, not str"
    case Str(_) => "TypeError: string indices must be integers, not 'str'"
    case _ => "TypeError: '" + TypeName(v) + "' object is not subscriptable"
  }

  /** `v.get(key, default)`: only a dict has `get`. */
  function Get(v: Value, key: string, default: Value): (r: Result<Value>)
    ensures r.Ok? <==> v.Dict?
    ensures v.Dict? && !HasKey(v, key) ==> r == Ok(default)
    ensures HasKey(v, key) ==> r == Index(v, key)
  {
    if !v.Dict? then
      Err("AttributeError: '" + TypeName(v) + "' object has no attribute 'get'")
    else match Lookup(v.entries, key)
      case Some(x) => Ok(x)
      case None => Ok(default)
  }

  /** `len(v)`. */
  function Len(v: Value): (r: Result<nat>)
    ensures r.Err? <==> v.Null? || v.Scalar?
  {
    match v
    case Dict(es) => Ok(|es|)
    case List(items) => Ok(|items|)
    case Str(s) => Ok(|s|)
    case _ => Err("TypeError: object of type '" + TypeName(v) + "' has no len()")
  }

  /** `v.items()`: only a dict has `items`. */
  function Items(v: Value): (r: Result<seq<Entry>>)
    ensures r.Ok? <==> v.Dict?
    ensures v.Dict? ==> r.value == v.entries
  {
    match v
    case Dict(es) => Ok(es)
    case _ => Err("AttributeError: '" + TypeName(v) + "' object has no attribute 'items'")
  }

  /** The elements `for x in v` visits: a list's elements, a dict's keys, a str's
      characters; any other value raises TypeError. */
  function Iterate(v: Value): (r: Result<seq<Value>>)
    ensures r.Err? <==> v.Null? || v.Scalar?
    ensures v.List? ==> r == Ok(v.items)
    ensures v.Dict? ==> r.Ok? && |r.value| == |v.entries| &&
                        forall i :: 0 <= i < |v.entries| ==> r.value[i] == Str(v.entries[i].key)
  {
    match v
    case List(items) => Ok(items)
    case Dict(es) => Ok(seq(|es|, i requires 0 <= i < |es| => Str(es[i].key)))
    case Str(s) => Ok(seq(|s|, i requires 0 <= i < |s| => Str([s[i]])))
    case _ => Err("TypeError: '" + TypeName(v) + "' object is not iterable")
  }

  /** `str(v)`; strings inside containers are shown between single quotes. */
  function Display(v: Value): string
    decreases v, 1
  {
    match v
    case Null => "None"
    case Str(s) => s
    case Scalar(_, t) => t
    case List(items) => "[" + JoinItems(items) + "]"
    case Dict(es) => "{" + JoinEntries(es) + "}"
  }

  /** `repr(v)` for an element of a container. */
  function Repr(v: Value): string
    decreases v, 2
  {
    if v.Str? then "'" + v.s + "'" else Display(v)
  }

  function JoinItems(items: seq<Value>): string
    decreases items, 0
  {
    if items == [] then []
    else if |items| == 1 then Repr(items[0])
    else Repr(items[0]) + ", " + JoinItems(items[1..])
  }

  function JoinEntries(es: seq<Entry>): string
    decreases es, 0
  {
    if es == [] then []
    else
      var head := "'" + es[0].key + "': " + Repr(es[0].value);
      if |es| == 1 then head else head + ", " + JoinEntries(es[1..])
  }

  /** `any(lit in str(x) for x in xs)`. */
  function AnyShows(xs: seq<Value>, lit: string): (b: bool)
    decreases |xs|
    ensures b <==> exists i :: 0 <= i < |xs| && Contains(Display(xs[i]), lit)
  {
    if xs == [] then false
    else if Contains(Display(xs[0]), lit) then true
    else
      var b := AnyShows(xs[1..], lit);
      assert forall i :: 1 <= i < |xs| ==> xs[i] == xs[1..][i - 1];
      b
  }
}
