/** The Python values a configuration file parses into, and the few Python
    built-ins the modelled code applies to them: `d.get(k, default)`, `k in d`,
    truthiness, `isinstance`, `str()`/`repr()`, iteration and the `in` test. */
module Json {
  import opened Wrappers
  import opened Strings

  /** A parsed JSON value as Python holds it. A float carries the text Python
      prints for it (`repr`), which is all the modelled code observes of it.
      An object keeps its members in insertion order, as a Python dict does. */
  datatype Json =
    | JNull
    | JBool(b: bool)
    | JInt(i: int)
    | JFloat(repr: string)
    | JStr(s: string)
    | JList(items: seq<Json>)
    | JObj(fields: Dict)

  /** A Python dict from string keys, in insertion order. */
  type Dict = seq<(string, Json)>

  function Keys(d: Dict): (r: seq<string>)
    ensures |r| == |d|
    ensures forall i :: 0 <= i < |d| ==> r[i] == d[i].0
  {
    seq(|d|, i requires 0 <= i < |d| => d[i].0)
  }

  /** `d[k]` when `k in d`, and nothing otherwise. */
  function Lookup(d: Dict, k: string): Option<Json>
    decreases |d|
  {
    if |d| == 0 then None
    else if d[0].0 == k then Some(d[0].1)
    else Lookup(d[1..], k)
  }

  /** A lookup succeeds exactly for a key the dict holds, and then yields a
      value stored under that key. */
  lemma {:induction false} LookupSpec(d: Dict, k: string)
    ensures Lookup(d, k).Some? <==> k in Keys(d)
    ensures Lookup(d, k).Some? ==> (k, Lookup(d, k).value) in d
    decreases |d|
  {
    if |d| > 0 {
      assert Keys(d) == [d[0].0] + Keys(d[1..]);
      if d[0].0 != k {
        LookupSpec(d[1..], k);
      }
    }
  }

  /** Python's `k in d`. */
  predicate Has(d: Dict, k: string) {
    Lookup(d, k).Some?
  }

  /** `d[k]` for a key the dict is known to hold. */
  function At(d: Dict, k: string): Json
    requires Has(d, k)
  {
    Lookup(d, k).value
  }

  /** Python's `d.get(k, default)`. */
  function Get(d: Dict, k: string, default: Json): Json {
    Lookup(d, k).GetOr(default)
  }

  /** Python's truth value of a JSON value: `None`, `False`, zero, and empty
      strings, lists and dicts are false. */
  predicate Truthy(j: Json) {
    match j
    case JNull => false
    case JBool(b) => b
    case JInt(i) => i != 0
    case JFloat(t) => t != "0.0" && t != "-0.0"
    case JStr(s) => |s| > 0
    case JList(items) => |items| > 0
    case JObj(fields) => |fields| > 0
  }

  /** The Python types an `isinstance` check in the modelled code asks for. */
  datatype Kind = KBool | KInt | KNumber | KStr | KList | KDict

  /** Python's `isinstance`. A `bool` is an `int` in Python, so `True` passes
      both the `int` check and the `(int, float)` check. */
  predicate IsInstance(j: Json, k: Kind) {
    match k
    case KBool => j.JBool?
    case KInt => j.JBool? || j.JInt?
    case KNumber => j.JBool? || j.JInt? || j.JFloat?
    case KStr => j.JStr?
    case KList => j.JList?
    case KDict => j.JObj?
  }

  /** Python's `type(j).__name__`. */
  function TypeName(j: Json): string {
    match j
    case JNull => "NoneType"
    case JBool(_) => "bool"
    case JInt(_) => "int"
    case JFloat(_) => "float"
    case JStr(_) => "str"
    case JList(_) => "list"
    case JObj(_) => "dict"
  }

  function HexDigit(n: nat): char
    requires n < 16
  {
    "0123456789abcdef"[n]
  }

  /** How `repr` writes one character of a string quoted with `quote`. */
  function EscapeChar(c: char, quote: char): string {
    if c == quote || c == '\\' then ['\\', c]
    else if c == '\n' then "\\n"
    else if c == '\r' then "\\r"
    else if c == '\t' then "\\t"
    else if c as int < 32 || c as int == 127 then
      "\\x" + [HexDigit(c as int / 16), HexDigit(c as int % 16)]
    else [c]
  }

  function EscapeChars(s: string, quote: char): string
    decreases |s|
  {
    if |s| == 0 then "" else EscapeChar(s[0], quote) + EscapeChars(s[1..], quote)
  }

  /** Python's `repr` of a string: single quotes, unless the text holds a
      single quote and no double quote. */
  function QuoteString(s: string): string {
    var quote := if '\'' in s && '"' !in s then '"' else '\'';
    [quote] + EscapeChars(s, quote) + [quote]
  }

  /** Python's `str(j)`, which is also what an f-string inserts for `{j}`. */
  function Str(j: Json): string
    decreases j, 0
  {
    match j
    case JNull => "None"
    case JBool(b) => if b then "True" else "False"
    case JInt(i) => IntToDecimal(i)
    case JFloat(t) => t
    case JStr(s) => s
    case JList(items) =>
      "[" + Join(", ", seq(|items|, n requires 0 <= n < |items| => Repr(items[n]))) + "]"
    case JObj(fields) =>
      "{" + Join(", ", seq(|fields|, n requires 0 <= n < |fields| => FieldRepr(j, n))) + "}"
  }

  /** One `'key': value` entry of a dict's `repr`. */
  function FieldRepr(j: Json, n: nat): string
    requires j.JObj? && n < |j.fields|
    decreases j, 0, n
  {
    var member := j.fields[n];
    assert member in j.fields;
    QuoteString(member.0) + ": " + Repr(member.1)
  }

  /** Python's `repr(j)`: like `str`, except that strings are quoted. */
  function Repr(j: Json): string
    decreases j, 1
  {
    if j.JStr? then QuoteString(j.s) else Str(j)
  }

  /** What `for x in j` iterates over: a list's items, a string's characters,
      a dict's keys; `None` when Python cannot iterate the value. */
  function Iterate(j: Json): (r: Option<seq<Json>>)
    ensures r.Some? <==> (j.JList? || j.JStr? || j.JObj?)
    ensures j.JList? ==> r == Some(j.items)
  {
    match j
    case JList(items) => Some(items)
    case JStr(s) => Some(seq(|s|, n requires 0 <= n < |s| => JStr([s[n]])))
    case JObj(fields) => Some(seq(|fields|, n requires 0 <= n < |fields| => JStr(fields[n].0)))
    case _ => None
  }

  /** Python's `needle in container` for a string needle: a substring test on
      a string, an equality search on a list, a key test on a dict; `None` when
      Python cannot apply `in` to the value. */
  function ContainsText(container: Json, needle: string): (r: Option<bool>)
    ensures r.Some? <==> (container.JList? || container.JStr? || container.JObj?)
    ensures container.JStr? ==> r == Some(Contains(container.s, needle))
  {
    match container
    case JStr(t) => Some(Contains(t, needle))
    case JList(items) => Some(JStr(needle) in items)
    case JObj(fields) => Some(needle in Keys(fields))
    case _ => None
  }
}
