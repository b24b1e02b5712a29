/** Row building: the pure part of `JsonToCsvExtractor.extract`. The loaded
    document is unwrapped to a record set, the columns are either given or
    discovered from the first record, and every record becomes one row with
    one cell per column. */
module Extract {
  import opened Strings
  import opened Json
  import opened Resolution
  import opened Discovery
  import opened Flatten

  /** Which columns to emit: discovered from the sample, or a given list. */
  datatype Columns = AllFields | Fields(names: seq<string>)

  datatype Table = Table(header: seq<string>, rows: seq<seq<Json>>)

  /** `data[0]` on an empty list, where Python raises `IndexError`. */
  datatype ExtractError = EmptyRecordSet

  datatype Result<+T> = Ok(value: T) | Err(error: ExtractError)

  /** Envelope unwrapping: a dict holding `items` is replaced by the value
      stored under it, whatever that value is; anything else is kept. */
  function Unwrap(data: Json): (u: Json)
    ensures data.JObject? && "items" in Keys(data.members) ==> Get(data.members, "items") == Some(u)
    ensures !(data.JObject? && "items" in Keys(data.members)) ==> u == data
  {
    if data.JObject? && "items" in Keys(data.members) then Get(data.members, "items").value
    else data
  }

  /** The records the row loop walks: the (unwrapped) list itself, or the
      single (unwrapped) value. */
  function Records(data: Json): (rs: seq<Json>)
    ensures data.JObject? && Get(data.members, "items").Some? ==>
              var w := Get(data.members, "items").value;
              rs == if w.JArray? then w.elems else [w]
    ensures data.JArray? ==> rs == data.elems
    ensures !data.JArray? && !(data.JObject? && "items" in Keys(data.members)) ==> rs == [data]
  {
    var u := Unwrap(data);
    if u.JArray? then u.elems else [u]
  }

  /** The value stored in a cell: a miss is Python's `None`; with flattening
      on, a dict or list becomes its flattened text. */
  function Cell(found: Option<Json>, flatten: bool): (c: Json)
    ensures found.None? ==> c == JNull
    ensures found.Some? && (!flatten || !IsContainer(found.value)) ==> c == found.value
    ensures flatten && found.Some? && IsContainer(found.value) ==> c == JString(FlattenValue(found.value))
  {
    var value := if found.Some? then found.value else JNull;
    if flatten && IsContainer(value) then JString(FlattenValue(value)) else value
  }

  /** One row: the cell of every field, in field order. */
  function Row(item: Json, fields: seq<string>, flatten: bool): (row: seq<Json>)
    ensures |row| == |fields|
  {
    seq(|fields|, j requires 0 <= j < |fields| => Cell(Resolve(item, fields[j]), flatten))
  }

  /** The row loop as written: one row per record, one cell per field. */
  method BuildRows(records: seq<Json>, fields: seq<string>, flatten: bool) returns (rows: seq<seq<Json>>)
    ensures |rows| == |records|
    ensures forall i :: 0 <= i < |rows| ==> |rows[i]| == |fields|
    ensures forall i, j :: 0 <= i < |rows| && 0 <= j < |fields| ==>
              rows[i][j] == Cell(Resolve(records[i], fields[j]), flatten)
  {
    rows := [];
    var n := 0;
    while n < |records|
      invariant 0 <= n <= |records|
      invariant |rows| == n
      invariant forall i :: 0 <= i < n ==> |rows[i]| == |fields|
      invariant forall i, j :: 0 <= i < n && 0 <= j < |fields| ==>
                  rows[i][j] == Cell(Resolve(records[i], fields[j]), flatten)
    {
      var item := records[n];
      var row := [];
      var m := 0;
      while m < |fields|
        invariant 0 <= m <= |fields|
        invariant |row| == m
        invariant forall j :: 0 <= j < m ==> row[j] == Cell(Resolve(item, fields[j]), flatten)
      {
        var value := GetNestedValue(item, fields[m]);
        row := row + [Cell(value, flatten)];
        m := m + 1;
      }
      rows := rows + [row];
      n := n + 1;
    }
  }

  /** `extract()` minus the file reading and CSV writing. */
  function ExtractTable(data: Json, columns: Columns, flatten: bool): (r: Result<Table>)
    ensures r.Err? <==> columns.AllFields? && Records(data) == []
    ensures r.Ok? ==> |r.value.rows| == |Records(data)|
    ensures r.Ok? ==> forall i :: 0 <= i < |r.value.rows| ==> |r.value.rows[i]| == |r.value.header|
    ensures r.Ok? && columns.Fields? ==> r.value.header == columns.names
    ensures r.Ok? && columns.AllFields? ==> r.value.header == GetAllFields(Records(data)[0])
    ensures r.Ok? ==> forall i, j :: 0 <= i < |r.value.rows| && 0 <= j < |r.value.header| ==>
              r.value.rows[i][j] == Cell(Resolve(Records(data)[i], r.value.header[j]), flatten)
  {
    var records := Records(data);
    if columns.AllFields? && |records| == 0 then Err(EmptyRecordSet)
    else
      var fields := if columns.AllFields? then GetAllFields(records[0]) else columns.names;
      Ok(Table(fields, seq(|records|, i requires 0 <= i < |records| => Row(records[i], fields, flatten))))
  }

  /** `{"items": [A, B], "found": 2, "pages": 1}` has record set `[A, B]`. */
  lemma EnvelopeExample(a: Json, b: Json)
    ensures Records(JObject([("items", JArray([a, b])), ("found", JNum(2)), ("pages", JNum(1))]))
            == [a, b]
  {
    var ms := [("items", JArray([a, b])), ("found", JNum(2)), ("pages", JNum(1))];
    assert Keys(ms)[0] == "items";
  }

  /** Unwrapping happens whenever `items` is present, whatever its value: a
      dict under `items` becomes the single record. */
  lemma EnvelopeOfObject(rest: seq<(string, Json)>, inner: seq<(string, Json)>)
    ensures Records(JObject([("items", JObject(inner))] + rest)) == [JObject(inner)]
  {
    var ms := [("items", JObject(inner))] + rest;
    assert Keys(ms)[0] == "items";
  }

  /** Any dict holding `items` has as its record set the list stored there,
      or the stored value alone when it is not a list. */
  lemma RecordsOfEnvelope(ms: seq<(string, Json)>, w: Json)
    requires Get(ms, "items") == Some(w)
    ensures Records(JObject(ms)) == if w.JArray? then w.elems else [w]
  {
  }

  /** A value with no `items` envelope that is not a list is one record. */
  lemma SingleRecord(data: Json)
    requires !data.JArray?
    requires !(data.JObject? && "items" in Keys(data.members))
    ensures Records(data) == [data]
  {
  }

  /** Scalars pass through the cell unchanged whether or not flattening is on. */
  lemma ScalarCellUnchanged(v: Json, flatten: bool)
    requires !IsContainer(v)
    ensures Cell(Some(v), flatten) == v
  {
  }

  /** With all fields requested, every header field resolves in the first
      record (the sample it was discovered from), so the first row has no
      missing cells apart from genuine `null` values. */
  lemma FirstRowComplete(data: Json, flatten: bool)
    requires Records(data) != []
    requires WellFormed(Records(data)[0]) && DotFreeKeys(Records(data)[0])
    ensures var t := ExtractTable(data, AllFields, flatten).value;
            forall j :: 0 <= j < |t.header| ==> Resolve(Records(data)[0], t.header[j]).Some?
  {
    var t := ExtractTable(data, AllFields, flatten).value;
    AllFieldsResolve(Records(data)[0]);
    assert forall j :: 0 <= j < |t.header| ==> t.header[j] in GetAllFields(Records(data)[0]);
  }

  /** Record `{"tags": ["x", "y"]}`, field `tags.0`, flattening on: the cell
      is the scalar `"x"`, not a flattened text. */
  lemma IndexCellExample()
    ensures ExtractTable(JObject([("tags", JArray([JString("x"), JString("y")]))]),
                         Fields(["tags.0"]), true)
            == Ok(Table(["tags.0"], [[JString("x")]]))
  {
    var rec := JObject([("tags", JArray([JString("x"), JString("y")]))]);
    IndexPathExample();
    assert Keys(rec.members) == ["tags"];
    assert Records(rec) == [rec];
    assert Row(rec, ["tags.0"], true) == [JString("x")];
    var rows := seq(1, i requires 0 <= i < 1 => Row([rec][i], ["tags.0"], true));
    assert rows == [[JString("x")]];
  }

  /** Record `{"a": 1, "b": {"x": 2, "y": 3}}`, field `b`, flattening on: the
      cell is the text `x: 2; y: 3`. */
  lemma ObjectCellExample()
    ensures ExtractTable(JObject([("a", JNum(1)), ("b", JObject([("x", JNum(2)), ("y", JNum(3))]))]),
                         Fields(["b"]), true)
            == Ok(Table(["b"], [[JString("x: 2; y: 3")]]))
  {
    var b := JObject([("x", JNum(2)), ("y", JNum(3))]);
    var rec := JObject([("a", JNum(1)), ("b", b)]);
    ObjectExample();
    assert Split("b", '.') == ["b"] by { SplitJoin(["b"], '.'); }
    assert Keys(rec.members) == ["a", "b"];
    assert Get(rec.members, "b") == Some(b);
    assert Step(rec, "b") == Some(b);
    assert ["b"][1..] == [];
    assert ResolveSegs(rec, ["b"]) == ResolveSegs(b, []);
    assert Resolve(rec, "b") == Some(b);
    assert Records(rec) == [rec];
    assert Row(rec, ["b"], true) == [JString("x: 2; y: 3")];
    var rows := seq(1, i requires 0 <= i < 1 => Row([rec][i], ["b"], true));
    assert rows == [[JString("x: 2; y: 3")]];
  }
}
