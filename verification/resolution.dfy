/** Path resolution: `JsonToCsvExtractor._get_nested_value`. A field path is
    split on '.', and each segment steps into a list by decimal index or into
    a dict by key; any miss is `None` (missing), never an exception. */
module Resolution {
  import opened Strings
  import opened Json

  type Path = seq<string>

  /** One step of the resolution loop: a digit segment indexes a list, any
      other step needs a dict holding the key. */
  function Step(v: Json, k: string): (r: Option<Json>)
    ensures v.JArray? && IsDigits(k) ==>
              (r.Some? <==> ParseNat(k) < |v.elems|) &&
              (r.Some? ==> r.value == v.elems[ParseNat(k)])
    ensures v.JArray? && !IsDigits(k) ==> r.None?
    ensures v.JObject? ==> (r.Some? <==> k in Keys(v.members))
    ensures v.JObject? && r.Some? ==> (k, r.value) in v.members
    ensures !IsContainer(v) ==> r.None?
  {
    if v.JArray? && IsDigits(k) then
      var i := ParseNat(k);
      if i < |v.elems| then Some(v.elems[i]) else None
    else if v.JObject? && k in Keys(v.members) then
      var r := Get(v.members, k);
      assert v.members[IndexOf(v.members, k, r.value)] == (k, r.value);
      r
    else None
  }

  /** The value at a segment path, or `None` as soon as a step misses. */
  function ResolveSegs(v: Json, segs: Path): Option<Json>
    decreases |segs|
  {
    if |segs| == 0 then Some(v)
    else
      match Step(v, segs[0])
      case None => None
      case Some(w) => ResolveSegs(w, segs[1..])
  }

  /** `_get_nested_value(data, field_path)`. */
  function Resolve(v: Json, field: string): Option<Json> {
    ResolveSegs(v, Split(field, '.'))
  }

  /** The resolution loop as written: walk the split segments, returning
      `None` at the first miss. */
  method GetNestedValue(data: Json, field: string) returns (r: Option<Json>)
    ensures r == Resolve(data, field)
  {
    var keys := Split(field, '.');
    var value := data;
    var i := 0;
    while i < |keys|
      invariant 0 <= i <= |keys|
      invariant ResolveSegs(data, keys) == ResolveSegs(value, keys[i..])
    {
      var key := keys[i];
      assert keys[i..][1..] == keys[i + 1..];
      if value.JArray? && IsDigits(key) {
        var k := ParseNat(key);
        if k < |value.elems| {
          value := value.elems[k];
        } else {
          return None;
        }
      } else if value.JObject? && key in Keys(value.members) {
        value := Get(value.members, key).value;
      } else {
        return None;
      }
      i := i + 1;
    }
    return Some(value);
  }

  /** Resolving `p + q` is resolving `p`, then `q` from where `p` ended. */
  lemma {:induction false} ResolveAppend(v: Json, p: Path, q: Path)
    ensures ResolveSegs(v, p + q) ==
            match ResolveSegs(v, p)
            case None => None
            case Some(w) => ResolveSegs(w, q)
    decreases |p|
  {
    if |p| > 0 {
      assert (p + q)[0] == p[0];
      assert (p + q)[1..] == p[1..] + q;
      match Step(v, p[0])
      case None =>
      case Some(w) => ResolveAppend(w, p[1..], q);
    } else {
      assert p + q == q;
    }
  }

  /** Missing-path safety: a path whose first segment cannot be taken
      resolves to `None`, whatever follows. */
  lemma MissingFirstSegment(v: Json, segs: Path)
    requires |segs| > 0
    requires !IsContainer(v)
             || (v.JArray? && (!IsDigits(segs[0]) || ParseNat(segs[0]) >= |v.elems|))
             || (v.JObject? && segs[0] !in Keys(v.members))
    ensures ResolveSegs(v, segs).None?
  {
  }

  /** A resolved value is never missing along the way: every prefix of a
      path that resolves also resolves. */
  lemma {:induction false} ResolvePrefix(v: Json, segs: Path, n: nat)
    requires n <= |segs|
    requires ResolveSegs(v, segs).Some?
    ensures ResolveSegs(v, segs[..n]).Some?
  {
    assert segs == segs[..n] + segs[n..];
    ResolveAppend(v, segs[..n], segs[n..]);
  }

  /** `tags.0` on `{"tags": ["x", "y"]}` is `"x"`. */
  lemma IndexPathExample()
    ensures Resolve(JObject([("tags", JArray([JString("x"), JString("y")]))]), "tags.0")
            == Some(JString("x"))
  {
    var segs := ["tags", "0"];
    assert Join(".", segs) == "tags.0";
    SplitJoin(segs, '.');
    assert Split("tags.0", '.') == segs;
    var v := JObject([("tags", JArray([JString("x"), JString("y")]))]);
    assert Keys(v.members) == ["tags"];
    assert IsDigits("0");
    assert ParseNat("0") == 0;
    assert segs[1..] == ["0"];
    assert ["0"][1..] == [];
  }
}
