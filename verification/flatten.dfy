/** Flattening: `JsonToCsvExtractor._flatten_value`. A dict or list becomes one
    display string by one of three rules chosen by the element types; values
    inside print with Python's `str()`, one level deep only. */
module Flatten {
  import opened Strings
  import opened Json

  /** `f"{k}: {v}"`. */
  function Entry(k: string, v: Json): string {
    k + ": " + Str(v)
  }

  /** The entries of a dict, in insertion order. */
  function Entries(ms: seq<(string, Json)>): (r: seq<string>)
    ensures |r| == |ms|
  {
    seq(|ms|, i requires 0 <= i < |ms| => Entry(ms[i].0, ms[i].1))
  }

  predicate AllStrings(es: seq<Json>) {
    forall i :: 0 <= i < |es| ==> es[i].JString?
  }

  predicate AllObjects(es: seq<Json>) {
    forall i :: 0 <= i < |es| ==> es[i].JObject?
  }

  function Texts(es: seq<Json>): (r: seq<string>)
    requires AllStrings(es)
    ensures |r| == |es|
  {
    seq(|es|, i requires 0 <= i < |es| => es[i].s)
  }

  function StrAll(es: seq<Json>): (r: seq<string>)
    ensures |r| == |es|
  {
    seq(|es|, i requires 0 <= i < |es| => Str(es[i]))
  }

  /** `f"{k}: {item.get(k, '')}"`: an absent key prints as empty. */
  function RecordEntry(k: string, item: Json): string
    requires item.JObject?
  {
    match Get(item.members, k)
    case Some(x) => Entry(k, x)
    case None => k + ": "
  }

  /** One element of a list of dicts, printed under the first element's keys. */
  function RecordText(keys: seq<string>, item: Json): string
    requires item.JObject?
  {
    Join(", ", seq(|keys|, j requires 0 <= j < |keys| => RecordEntry(keys[j], item)))
  }

  function RecordTexts(keys: seq<string>, es: seq<Json>): (r: seq<string>)
    requires AllObjects(es)
    ensures |r| == |es|
  {
    seq(|es|, i requires 0 <= i < |es| => RecordText(keys, es[i]))
  }

  /** `_flatten_value(v)`. */
  function FlattenValue(v: Json): (r: string)
    ensures !IsContainer(v) ==> r == Str(v)
    ensures v.JArray? && |v.elems| == 0 ==> r == ""
    ensures v.JObject? && |v.members| == 0 ==> r == ""
  {
    match v
    case JObject(ms) => Join("; ", Entries(ms))
    case JArray(es) =>
      if AllStrings(es) then Join(", ", Texts(es))
      else if AllObjects(es) && |es| > 0 then Join(" | ", RecordTexts(Keys(es[0].members), es))
      else Join(", ", StrAll(es))
    case _ => Str(v)
  }

  // The dict rule.

  lemma FlattenOneMember(k: string, x: Json)
    ensures FlattenValue(JObject([(k, x)])) == k + ": " + Str(x)
  {
  }

  /** Dict entries are joined with "; " in insertion order: flattening a dict
      whose members are `a` then `b` is flattening `a`, "; ", flattening `b`. */
  lemma FlattenObjectAppend(a: seq<(string, Json)>, b: seq<(string, Json)>)
    requires |a| > 0 && |b| > 0
    ensures FlattenValue(JObject(a + b)) == FlattenValue(JObject(a)) + "; " + FlattenValue(JObject(b))
  {
    assert Entries(a + b) == Entries(a) + Entries(b);
    JoinAppend("; ", Entries(a), Entries(b));
  }

  // The list-of-strings rule.

  /** Strings are joined with ", " in list order. */
  lemma FlattenStringsAppend(a: seq<Json>, b: seq<Json>)
    requires |a| > 0 && |b| > 0 && AllStrings(a + b)
    ensures FlattenValue(JArray(a + b)) == FlattenValue(JArray(a)) + ", " + FlattenValue(JArray(b))
  {
    assert AllStrings(a) && AllStrings(b) by {
      forall i | 0 <= i < |a| ensures a[i].JString? { assert a[i] == (a + b)[i]; }
      forall i | 0 <= i < |b| ensures b[i].JString? { assert b[i] == (a + b)[|a| + i]; }
    }
    assert Texts(a + b) == Texts(a) + Texts(b);
    JoinAppend(", ", Texts(a), Texts(b));
  }

  /** The list-of-strings rule is the generic rule specialised: a string
      prints as itself, so joining the strings or their `str()` agrees. */
  lemma StringsRuleIsGeneric(es: seq<Json>)
    requires AllStrings(es)
    ensures FlattenValue(JArray(es)) == Join(", ", StrAll(es))
  {
    assert Texts(es) == StrAll(es);
  }

  // The list-of-dicts rule.

  /** A dict printed under its own keys gives its entries, joined with ", "
      rather than "; " (keys are distinct, so each lookup finds its member). */
  lemma {:induction false} RecordTextOwnKeys(ms: seq<(string, Json)>)
    requires DistinctKeys(ms)
    ensures RecordText(Keys(ms), JObject(ms)) == Join(", ", Entries(ms))
  {
    var keys := Keys(ms);
    var item := JObject(ms);
    var parts := seq(|keys|, j requires 0 <= j < |keys| => RecordEntry(keys[j], item));
    forall j | 0 <= j < |keys| ensures parts[j] == Entries(ms)[j] {
      GetMember(ms, j);
    }
    assert parts == Entries(ms);
  }

  /** A key of the first element that a later element lacks prints as `k: `. */
  lemma RecordEntryMissing(k: string, item: Json)
    requires item.JObject? && k !in Keys(item.members)
    ensures RecordEntry(k, item) == k + ": "
  {
  }

  /** A non-empty list of dicts gives one " | "-separated section per element,
      in order, every section using the first element's keys. */
  lemma FlattenRecordsAppend(a: seq<Json>, b: seq<Json>)
    requires |a| > 0 && |b| > 0 && AllObjects(a) && AllObjects(b)
    ensures FlattenValue(JArray(a + b)) ==
            FlattenValue(JArray(a)) + " | " + Join(" | ", RecordTexts(Keys(a[0].members), b))
  {
    assert (a + b)[0] == a[0];
    assert !AllStrings(a + b) by { assert !(a + b)[0].JString?; }
    assert AllObjects(a + b) by {
      forall i | 0 <= i < |a + b| ensures (a + b)[i].JObject? {
        if i < |a| { assert (a + b)[i] == a[i]; } else { assert (a + b)[i] == b[i - |a|]; }
      }
    }
    assert !AllStrings(a) by { assert !a[0].JString?; }
    var keys := Keys(a[0].members);
    assert RecordTexts(keys, a + b) == RecordTexts(keys, a) + RecordTexts(keys, b);
    JoinAppend(" | ", RecordTexts(keys, a), RecordTexts(keys, b));
  }

  /** A single dict in a list prints as its entries joined with ", ". */
  lemma FlattenOneRecord(ms: seq<(string, Json)>)
    requires DistinctKeys(ms)
    ensures FlattenValue(JArray([JObject(ms)])) == Join(", ", Entries(ms))
  {
    RecordTextOwnKeys(ms);
  }

  // The fallback rule.

  /** Any other list (mixed, or dicts mixed with other values) joins the
      `str()` of each element with ", ". */
  lemma FlattenMixed(es: seq<Json>)
    requires exists i :: 0 <= i < |es| && !es[i].JString?
    requires exists i :: 0 <= i < |es| && !es[i].JObject?
    ensures FlattenValue(JArray(es)) == Join(", ", StrAll(es))
  {
  }

  // The documented examples.

  /** `{"x": 2, "y": 3}` flattens to `x: 2; y: 3`. */
  lemma ObjectExample()
    ensures FlattenValue(JObject([("x", JNum(2)), ("y", JNum(3))])) == "x: 2; y: 3"
  {
    FlattenObjectAppend([("x", JNum(2))], [("y", JNum(3))]);
    assert [("x", JNum(2))] + [("y", JNum(3))] == [("x", JNum(2)), ("y", JNum(3))];
    assert Str(JNum(2)) == "2" && Str(JNum(3)) == "3";
  }

  /** `["ops", "eng"]` flattens to `ops, eng`. */
  lemma StringsExample()
    ensures FlattenValue(JArray([JString("ops"), JString("eng")])) == "ops, eng"
  {
    assert Texts([JString("ops"), JString("eng")]) == ["ops", "eng"];
  }

  /** `[{"k": 1}, {"k": 2}]` flattens to `k: 1 | k: 2`. */
  lemma RecordsExample()
    ensures FlattenValue(JArray([JObject([("k", JNum(1))]), JObject([("k", JNum(2))])])) == "k: 1 | k: 2"
  {
    var es := [JObject([("k", JNum(1))]), JObject([("k", JNum(2))])];
    assert !AllStrings(es) by { assert !es[0].JString?; }
    assert Keys(es[0].members) == ["k"];
    assert RecordText(["k"], es[0]) == "k: 1" by {
      assert Get(es[0].members, "k") == Some(JNum(1));
      assert Str(JNum(1)) == "1";
    }
    assert RecordText(["k"], es[1]) == "k: 2" by {
      assert Get(es[1].members, "k") == Some(JNum(2));
      assert Str(JNum(2)) == "2";
    }
    assert RecordTexts(["k"], es) == ["k: 1", "k: 2"];
  }
}
