/** The JSON values the extractor works on, as `json.load` hands them to it:
    None, booleans, numbers, strings, lists and insertion-ordered dicts. */
module Json {
  import opened Strings

  datatype Option<+T> = None | Some(value: T)

  /** A JSON value. An object is its members in insertion order; Python dicts
      have distinct keys, which `WellFormed` states. Numbers are integers. */
  datatype Json =
    | JNull
    | JBool(b: bool)
    | JNum(n: int)
    | JString(s: string)
    | JArray(elems: seq<Json>)
    | JObject(members: seq<(string, Json)>)

  /** `isinstance(v, (dict, list))`. */
  predicate IsContainer(v: Json) {
    v.JArray? || v.JObject?
  }

  function Keys(ms: seq<(string, Json)>): (ks: seq<string>)
    ensures |ks| == |ms|
    ensures forall i :: 0 <= i < |ms| ==> ks[i] == ms[i].0
  {
    seq(|ms|, i requires 0 <= i < |ms| => ms[i].0)
  }

  predicate DistinctKeys(ms: seq<(string, Json)>) {
    forall i, j :: 0 <= i < j < |ms| ==> ms[i].0 != ms[j].0
  }

  /** Every object, at every depth, has distinct keys (as every Python dict does). */
  predicate WellFormed(v: Json) {
    match v
    case JArray(es) => forall i :: 0 <= i < |es| ==> WellFormed(es[i])
    case JObject(ms) => DistinctKeys(ms) && forall i :: 0 <= i < |ms| ==> WellFormed(ms[i].1)
    case _ => true
  }

  /** `key in d` followed by `d[key]`: the value stored under `k`, if any. */
  function Get(ms: seq<(string, Json)>, k: string): (r: Option<Json>)
    ensures r.None? <==> k !in Keys(ms)
    ensures r.Some? ==> exists i :: 0 <= i < |ms| && ms[i] == (k, r.value)
  {
    if |ms| == 0 then None
    else if ms[0].0 == k then Some(ms[0].1)
    else
      var r := Get(ms[1..], k);
      assert Keys(ms) == [ms[0].0] + Keys(ms[1..]);
      assert r.Some? ==> ms[1..][IndexOf(ms[1..], k, r.value)] == (k, r.value);
      r
  }

  /** A witness index for `Get`'s existential. */
  function IndexOf(ms: seq<(string, Json)>, k: string, v: Json): (i: nat)
    requires exists i :: 0 <= i < |ms| && ms[i] == (k, v)
    ensures i < |ms| && ms[i] == (k, v)
  {
    if ms[0] == (k, v) then 0
    else
      assert exists i :: 1 <= i < |ms| && ms[i] == (k, v);
      assert exists i :: 0 <= i < |ms[1..]| && ms[1..][i] == (k, v) by {
        var i :| 1 <= i < |ms| && ms[i] == (k, v);
        assert ms[1..][i - 1] == (k, v);
      }
      1 + IndexOf(ms[1..], k, v)
  }

  /** With distinct keys, looking up the key of a member finds that member. */
  lemma {:induction false} GetMember(ms: seq<(string, Json)>, i: nat)
    requires DistinctKeys(ms)
    requires i < |ms|
    ensures Get(ms, ms[i].0) == Some(ms[i].1)
    decreases i
  {
    if i > 0 {
      assert ms[0].0 != ms[i].0;
      assert ms[1..][i - 1] == ms[i];
      GetMember(ms[1..], i - 1);
    }
  }

  // Python's str() and repr(), as used by f-strings and ', '.join(str(x) ...).

  function HexDigit(n: nat): char
    requires n < 16
  {
    if n < 10 then '0' + n as char else 'a' + (n - 10) as char
  }

  /** One character of a string's repr between quotes `q`. */
  function EscapeChar(c: char, q: char): string {
    if c == '\\' then "\\\\"
    else if c == q then ['\\', q]
    else if c == '\t' then "\\t"
    else if c == '\n' then "\\n"
    else if c == '\r' then "\\r"
    else if c < ' ' || c as int == 127 then
      ['\\', 'x', HexDigit(c as nat / 16), HexDigit(c as nat % 16)]
    else [c]
  }

  function EscapeString(s: string, q: char): string {
    if |s| == 0 then "" else EscapeChar(s[0], q) + EscapeString(s[1..], q)
  }

  /** `repr(s)` for a string: single quotes unless the text holds a single
      quote and no double quote. */
  function ReprString(s: string): string {
    var q := if '\'' in s && '"' !in s then '"' else '\'';
    [q] + EscapeString(s, q) + [q]
  }

  /** `repr(v)`: how a value prints inside a list or dict. */
  function Repr(v: Json): string
    decreases v, 1
  {
    match v
    case JString(s) => ReprString(s)
    case JArray(es) => "[" + Join(", ", ReprElems(v, 0)) + "]"
    case JObject(ms) => "{" + Join(", ", ReprMembers(v, 0)) + "}"
    case _ => ScalarText(v)
  }

  function ReprElems(v: Json, i: nat): seq<string>
    requires v.JArray? && i <= |v.elems|
    decreases v, 0, |v.elems| - i
  {
    if i == |v.elems| then [] else [Repr(v.elems[i])] + ReprElems(v, i + 1)
  }

  function ReprMembers(v: Json, i: nat): seq<string>
    requires v.JObject? && i <= |v.members|
    decreases v, 0, |v.members| - i
  {
    if i == |v.members| then []
    else [ReprString(v.members[i].0) + ": " + Repr(v.members[i].1)] + ReprMembers(v, i + 1)
  }

  /** How Python prints None, a boolean or an integer (str and repr agree). */
  function ScalarText(v: Json): string
    requires v.JNull? || v.JBool? || v.JNum?
  {
    if v.JNull? then "None"
    else if v.JBool? then (if v.b then "True" else "False")
    else IntToString(v.n)
  }

  /** `str(v)`: a string is itself, a container prints as its repr. */
  function Str(v: Json): string {
    if v.JString? then v.s else Repr(v)
  }
}
