/** Parsed YAML and the Python operations the configuration code applies to it. */
module Yaml {
  import opened Wrappers
  import opened PyText

  datatype Value =
    | Null
    | Bool(b: bool)
    | Num(n: int)
    | Str(s: string)
    | List(items: seq<Value>)
    | Map(entries: Section)

  type Section = map<string, Value>

  /** Any Python exception; which one is not distinguished. */
  datatype Fault = Raised

  /** What the configuration code takes from elsewhere: `str()` of a list or mapping, environment
      substitution, and joining a base URL with the Solr path. */
  datatype Host = Host(repr: Value -> string, expand: Value -> Value, solrUrl: Value -> Value)

  predicate Truthy(v: Value) {
    match v
    case Null => false
    case Bool(b) => b
    case Num(n) => n != 0
    case Str(s) => s != ""
    case List(items) => items != []
    case Map(entries) => entries != map[]
  }

  /** `str(v)` */
  function Text(h: Host, v: Value): string {
    match v
    case Str(s) => s
    case Null => "None"
    case Bool(b) => if b then "True" else "False"
    case Num(n) => if n < 0 then "-" + NatText(-n) else NatText(n)
    case List(_) => h.repr(v)
    case Map(_) => h.repr(v)
  }

  predicate Hashable(v: Value) {
    !v.List? && !v.Map?
  }

  function GetOr(m: Section, key: string, default: Value): Value {
    if key in m then m[key] else default
  }

  /** `v.get(key, default)` */
  function Get(v: Value, key: string, default: Value): Result<Value, Fault> {
    if v.Map? then Ok(GetOr(v.entries, key, default)) else Err(Raised)
  }

  predicate Contains(s: string, part: string) {
    exists i {:trigger s[i..]} :: 0 <= i <= |s| - |part| && part <= s[i..]
  }

  /** `key in v` */
  function Has(v: Value, key: string): Result<bool, Fault> {
    match v
    case Map(m) => Ok(key in m)
    case List(items) => Ok(Str(key) in items)
    case Str(s) => Ok(Contains(s, key))
    case _ => Err(Raised)
  }

  /** `v[key]` */
  function At(v: Value, key: string): Result<Value, Fault> {
    if v.Map? && key in v.entries then Ok(v.entries[key]) else Err(Raised)
  }

  /** `v[key] = x` */
  function SetAt(v: Value, key: string, x: Value): Result<Value, Fault> {
    if v.Map? then Ok(Map(v.entries[key := x])) else Err(Raised)
  }

  /** `v.append(x)` */
  function Append(v: Value, x: Value): Result<Value, Fault> {
    if v.List? then Ok(List(v.items + [x])) else Err(Raised)
  }

  /**
   * The elements a `for` loop over `v` visits. Looping over a text visits its characters. Looping over a mapping
   * visits its keys, of which only the number is kept, since a mapping here has no order.
   */
  function Elements(v: Value): Result<seq<Value>, Fault> {
    match v
    case List(items) => Ok(items)
    case Map(m) => Ok(seq(|m|, _ => Str("")))
    case Str(s) => Ok(seq(|s|, i requires 0 <= i < |s| => Str([s[i]])))
    case _ => Err(Raised)
  }

  // ----- what the primitives mean ------------------------------------------

  /** Six values are falsy and no others. */
  lemma FalsyValues(v: Value)
    ensures !Truthy(v) <==> v in {Null, Bool(false), Num(0), Str(""), List([]), Map(map[])}
  {
  }

  /** Numbers are written in decimal digits, with a sign if negative. */
  lemma ScalarTexts(h: Host, n: nat)
    ensures Text(h, Null) == "None" && Text(h, Bool(true)) == "True" && Text(h, Bool(false)) == "False"
    ensures Text(h, Num(n)) == NatText(n) && (n > 0 ==> Text(h, Num(-(n as int))) == "-" + NatText(n))
  {
  }

  /** A text has a part exactly if it is that part with something before and something behind. */
  lemma ContainsExactly(s: string, part: string)
    ensures Contains(s, part) <==> exists front: string, back: string :: s == front + part + back
  {
    if Contains(s, part) {
      var i :| 0 <= i <= |s| - |part| && part <= s[i..];
      assert s == s[..i] + part + s[i..][|part|..];
    }
    if front: string, back: string :| s == front + part + back {
      var i := |front|;
      assert s[i..] == part + back;
    }
  }
}
