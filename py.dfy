/** The Python values that flow through the research and report nodes, as far
    as those nodes look at them: search hits (plain dicts of scalars), section
    dictionaries, and section objects that may be a pydantic model or a plain
    dict. */
module Py {

  /** A scalar a search hit or a section field may hold. A number (the `score`
      of a hit, for one) is carried only as the text `str()` gives for it. */
  datatype Scalar = Null | Bool(b: bool) | Num(shown: string) | Str(s: string)

  /** What an f-string substitutes for a scalar: `str(v)`. */
  function Show(v: Scalar): string
  {
    match v
    case Null => "None"
    case Bool(b) => if b then "True" else "False"
    case Num(shown) => shown
    case Str(s) => s
  }

  /** One search hit: a dict from key to scalar. */
  type Item = map<string, Scalar>

  /** `item.get(key, default)` for a hit, rendered into an f-string. */
  function Lookup(item: Item, key: string, default: string): string
  {
    if key in item then Show(item[key]) else default
  }

  /** A value held under a key of a section dictionary or as an attribute of a
      section object: a scalar, a list of strings (`search_queries`) or a list
      of hits (`search_results`). */
  datatype Value = Atom(a: Scalar) | Strings(strs: seq<string>) | Items(items: seq<Item>)

  /** Python truthiness of a value: `None`, `False`, numeric zero, the empty
      string and the empty list are false. */
  predicate Truthy(v: Value)
  {
    match v
    case Atom(Null) => false
    case Atom(Bool(b)) => b
    case Atom(Num(shown)) => shown != "0" && shown != "0.0" && shown != "-0.0"
    case Atom(Str(s)) => s != ""
    case Strings(q) => q != []
    case Items(xs) => xs != []
  }

  /** A section as a node receives it: a pydantic model, whose fields are
      attributes, or a plain dict, whose keys are not. Nested models are held in
      the form `model_dump` gives them. */
  datatype Record = Model(attrs: map<string, Value>) | Mapping(entries: map<string, Value>)

  /** `getattr(r, name, default)` for the field names the nodes ask for
      (`title`, `description`, `section_context`, `require_research`): a plain
      dict has no such attribute, so it always yields the default. */
  function GetAttr(r: Record, name: string, default: Value): Value
  {
    match r
    case Model(attrs) => if name in attrs then attrs[name] else default
    case Mapping(_) => default
  }

  /** `section.model_dump()` for a model, `dict(section)` for a dict. */
  function ToDict(r: Record): map<string, Value>
  {
    match r
    case Model(attrs) => attrs
    case Mapping(entries) => entries
  }
}
