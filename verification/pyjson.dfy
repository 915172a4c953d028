/**
 The webhook body as the handler sees it: the value `request.json()` parses,
 and the few Python operations the handler applies to it — truthiness,
 `dict.get` with a default, `==` against a string or an integer, the `in`
 operator, and `str()` as an f-string uses it.
 */
module PyJson {
  import opened Text

  datatype Option<+T> = None | Some(value: T)

  /** A parsed JSON value. An object keeps its members in document order, as
      a Python `dict` built by the JSON parser does. Numbers are integers. */
  datatype Json =
    | JNull
    | JBool(b: bool)
    | JInt(i: int)
    | JStr(s: string)
    | JArr(items: seq<Json>)
    | JObj(members: seq<Member>)

  datatype Member = Member(key: string, value: Json)

  /** Python's `bool(v)`: `None`, `False`, `0`, `""`, `[]` and `{}` are false. */
  predicate Truthy(v: Json) {
    match v
    case JNull => false
    case JBool(b) => b
    case JInt(i) => i != 0
    case JStr(s) => s != ""
    case JArr(items) => items != []
    case JObj(members) => members != []
  }

  /** Exactly six JSON values are falsy: `null`, `false`, `0`, `""`, `[]`
      and `{}`. */
  lemma FalsyValues(v: Json)
    ensures !Truthy(v) <==> v in {JNull, JBool(false), JInt(0), JStr(""), JArr([]), JObj([])}
  {
  }

  /** `key in d` for a dict. */
  predicate HasKey(members: seq<Member>, key: string) {
    exists m :: m in members && m.key == key
  }

  /** `d.get(key)`: the value stored under `key`, if any. */
  function Lookup(members: seq<Member>, key: string): (r: Option<Json>)
    ensures r.Some? <==> HasKey(members, key)
    ensures r.Some? ==> Member(key, r.value) in members
    decreases |members|
  {
    if |members| == 0 then None
    else if members[0].key == key then Some(members[0].value)
    else
      var r := Lookup(members[1..], key);
      assert forall m :: m in members[1..] ==> m in members;
      assert HasKey(members, key) ==> HasKey(members[1..], key) by {
        if HasKey(members, key) {
          var m :| m in members && m.key == key;
          assert m != members[0];
          assert m in members[1..];
        }
      }
      r
  }

  /** `d.get(key, default)`. */
  function GetOr(members: seq<Member>, key: string, default: Json): (r: Json)
    ensures HasKey(members, key) ==> Member(key, r) in members
    ensures !HasKey(members, key) ==> r == default
  {
    match Lookup(members, key)
    case Some(v) => v
    case None => default
  }

  /** Python's `v == n` for an `int` n. `True == 1` and `False == 0` hold in
      Python, so a JSON boolean can equal an integer id. */
  predicate EqualsInt(v: Json, n: int) {
    match v
    case JInt(i) => i == n
    case JBool(b) => (b && n == 1) || (!b && n == 0)
    case _ => false
  }

  /** Python's `needle in v` for a string `needle`: a substring test on a
      string, an element test on a list, a key test on a dict; on anything
      else Python raises `TypeError`, here `None`. */
  function ContainsText(v: Json, needle: string): (r: Option<bool>)
    ensures r.Some? <==> (v.JStr? || v.JArr? || v.JObj?)
  {
    match v
    case JStr(s) => Some(Contains(s, needle))
    case JArr(items) => Some(JStr(needle) in items)
    case JObj(members) => Some(HasKey(members, needle))
    case _ => None
  }

  /** Python's `str(v)`, which is what `f"{v}"` inserts: a string as it is,
      anything else as its `repr`. */
  function Str(v: Json): string {
    if v.JStr? then v.s else Repr(v)
  }

  /** Python's `repr(v)` of the value the JSON parser builds. */
  function Repr(v: Json): string
    decreases v
  {
    match v
    case JNull => "None"
    case JBool(b) => if b then "True" else "False"
    case JInt(i) => IntToString(i)
    case JStr(s) => QuoteString(s)
    case JArr(items) => "[" + ReprItems(items) + "]"
    case JObj(members) => "{" + ReprMembers(members) + "}"
  }

  function ReprItems(items: seq<Json>): string
    decreases items
  {
    if |items| == 0 then ""
    else if |items| == 1 then Repr(items[0])
    else Repr(items[0]) + ", " + ReprItems(items[1..])
  }

  function ReprMembers(members: seq<Member>): string
    decreases members
  {
    if |members| == 0 then ""
    else
      var m := members[0];
      var item := QuoteString(m.key) + ": " + Repr(m.value);
      if |members| == 1 then item else item + ", " + ReprMembers(members[1..])
  }

  /** `repr` of a string: single quotes, unless the text holds a single quote
      and no double quote. */
  function QuoteString(s: string): string {
    var q := if '\'' in s && '"' !in s then '"' else '\'';
    [q] + EscapeChars(s, q) + [q]
  }

  function EscapeChars(s: string, q: char): string
    decreases |s|
  {
    if |s| == 0 then "" else EscapeChar(s[0], q) + EscapeChars(s[1..], q)
  }

  /** The escapes `repr` applies to one character of a string quoted with `q`. */
  function EscapeChar(c: char, q: char): string {
    if c == q || c == '\\' then ['\\', c]
    else if c == '\t' then "\\t"
    else if c == '\n' then "\\n"
    else if c == '\r' then "\\r"
    else if c < ' ' || ('\U{007F}' <= c <= '\U{00A0}') || c == '\U{00AD}' then
      "\\x" + [HexDigit(c as int / 16), HexDigit(c as int % 16)]
    else [c]
  }

  function HexDigit(d: int): char
    requires 0 <= d < 16
  {
    if d < 10 then ('0' as int + d) as char else ('a' as int + d - 10) as char
  }
}
