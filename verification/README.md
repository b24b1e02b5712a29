# hh_vacancy_extractor: the JSON-to-table engine, in Dafny

This project models the core of `hh_vacancy_extractor`. That core turns an arbitrary JSON document into a table of
rows and builds the query parameters for the vacancy search. It has five parts:

- **Field discovery** (`_traverse_json`, `_get_all_fields`). A depth-first, pre-order walk of one sample record yields
  the dotted field names. Every dict key gives a path, emitted before the paths below it. A list whose first element
  is a dict is walked element by element under the decimal index (`tags.0.a`, `tags.1.a`, with no de-duplication).
  Nothing else gives a path.
- **Path resolution** (`_get_nested_value`). A field name is split on `.`. A digit segment indexes a list. Any other
  step needs a dict that holds the key. Any miss gives `None`.
- **Flattening** (`_flatten_value`). A dict becomes `k: v` entries joined with `"; "`. A list of strings is joined with
  `", "`. A non-empty list of dicts gives one `", "`-joined section per element, using the first element's keys, with
  the sections joined by `" | "`. Any other list joins `str(x)` with `", "`.
- **Row building** (the pure part of `extract`). The document is unwrapped to a record set. The columns are given or
  discovered. Every record becomes one row with one cell per column.
- **`HHRequestBuilder`**. Setters over a parameter map. The list setters keep only allowed values, in input order, and
  write their key only when something survives.

Modules, one per component: `Strings` (join, split, digits), `Json` (the value type, dict lookup, Python's
`str`/`repr`), `Resolution`, `Discovery`, `Flatten`, `Extract`, `RequestBuilder`.

Modelling choices:

- A JSON value is `Json`. Objects are member sequences in insertion order. `WellFormed` states that keys are
  distinct, as they are in every Python dict.
- A missing path is `None` (an `Option`). In a row cell it becomes `JNull`, exactly as Python stores `None`.
- A flattened cell is a `JString`.
- The code unwraps the envelope whenever `items` is present (models.py:171-172), whatever the value under it. A dict
  under `items` therefore becomes the single record (`Extract.EnvelopeOfObject`). Unwrapping does not check that
  the value under `items` is a list.
- When all fields are requested, discovery replaces any given field list (models.py:174-175). That is the model's
  `AllFields` mode.
- Requesting all fields on an empty record set makes Python raise `IndexError` at `data[0]`. The model returns
  `Err(EmptyRecordSet)` for it.
- Discovered field names resolve in their own sample if no key contains a `.` (`Discovery.AllFieldsResolve`).
  `Discovery.DottedKeyExample` shows the key `a.b` being discovered and then missed.

## Model

| member | source | states |
|---|---|---|
| Strings.Split | hh_vacancy_extractor/models/models.py:206 | `split('.')` gives at least one piece, no piece holds the separator, and joining the pieces back gives the input |
| Strings.SplitJoin | hh_vacancy_extractor/models/models.py:198 | joining dot-free segments with `.` (as discovery does) and splitting again (as resolution does) gives the segments back |
| Strings.NatToString | hh_vacancy_extractor/models/models.py:202 | `str(i)` of an index is a digit string without leading zero that `int()` parses back to `i` |
| Json.Get | hh_vacancy_extractor/models/models.py:215-216 | the lookup misses exactly when the key is absent, and a hit is the value of a member with that key |
| Json.GetMember | hh_vacancy_extractor/models/models.py:215-216 | with distinct keys, looking up a member's key yields that member's value |
| Resolution.Step | hh_vacancy_extractor/models/models.py:209-218 | on a list a digit segment `k` hits exactly when `int(k) < len` and yields `list[k]`; a non-digit segment on a list, any segment on a scalar or None, and an absent key all miss |
| Resolution.GetNestedValue | hh_vacancy_extractor/models/models.py:205-219 | the loop with early `return None` agrees with stepping recursively through the split path |
| Resolution.ResolveAppend | hh_vacancy_extractor/models/models.py:207-219 | resolving `p + q` is resolving `p`, then `q` from that value; a miss in `p` is a miss overall |
| Resolution.MissingFirstSegment | hh_vacancy_extractor/models/models.py:213-218 | a first segment that cannot be taken makes the whole path resolve to None, whatever follows |
| Resolution.ResolvePrefix | hh_vacancy_extractor/models/models.py:208-219 | every prefix of a path that resolves also resolves |
| Resolution.IndexPathExample | hh_vacancy_extractor/models/models.py:209-214 | `tags.0` on `{"tags": ["x", "y"]}` resolves to `"x"` |
| Discovery.Discover | hh_vacancy_extractor/models/models.py:194-203 | every emitted path extends the current path; scalars, empty lists and lists whose first element is not a dict emit nothing (the soundness half; completeness and order are the block lemmas below) |
| Discovery.DiscoverMembers | hh_vacancy_extractor/models/models.py:195-199 | every path from the dict loop at member `i` continues with one of the keys from `i` on |
| Discovery.DiscoverElems | hh_vacancy_extractor/models/models.py:200-203 | every path from the list loop at index `i` continues with the decimal index of an element from `i` on |
| Discovery.MemberBlock | hh_vacancy_extractor/models/models.py:195-199 | completeness and order for a dict: key `i`'s path occurs exactly once, right after the earlier members' blocks, followed at once by the key's whole subtree; everything before continues with an earlier key, everything after with a later key |
| Discovery.MembersExhaust | hh_vacancy_extractor/models/models.py:195-199 | a dict emits exactly its members' blocks and nothing more, so the output is those blocks back to back in insertion order |
| Discovery.ElemBlock | hh_vacancy_extractor/models/models.py:200-203 | completeness and order for a list of dicts: element `i`'s paths occur as one contiguous block right after the earlier elements' blocks; everything before continues with a smaller index, everything after with a larger one |
| Discovery.ElemsExhaust | hh_vacancy_extractor/models/models.py:200-203 | a list of dicts emits exactly its elements' blocks and nothing more |
| Discovery.GetAllFields | hh_vacancy_extractor/models/models.py:189-198 | one field name per discovered path, in order, each the `.`-join of its path, and each splits back into its path unless a segment holds a `.` |
| Discovery.DiscoverResolves | hh_vacancy_extractor/models/models.py:194-219 | every discovered segment path resolves, in the sample it came from, to a value and not to a miss |
| Discovery.AllFieldsResolve | hh_vacancy_extractor/models/models.py:189-219 | with dot-free keys, every field name `_get_all_fields` reports resolves in its sample |
| Discovery.DiscoverDotFree | hh_vacancy_extractor/models/models.py:197-202 | with dot-free keys no discovered segment holds a `.`, since indices are digits |
| Discovery.DiscoverParentFirst | hh_vacancy_extractor/models/models.py:194-203 | pre-order: whenever one discovered path is an ancestor of another, it comes first |
| Discovery.NestedObjectExample | hh_vacancy_extractor/models/models.py:195-199 | `{"name": "A", "salary": {"from": 100}}` gives `name`, `salary`, `salary.from` |
| Discovery.PerIndexExample | hh_vacancy_extractor/models/models.py:200-203 | `{"tags": [{"a": 1}, {"a": 2}]}` gives `tags`, `tags.0.a`, `tags.1.a`, with one path per index |
| Discovery.DottedKeyExample | hh_vacancy_extractor/models/models.py:194-219 | the key `a.b` is discovered as field `a.b`, which resolution then misses |
| Flatten.FlattenValue | hh_vacancy_extractor/models/models.py:221-235 | a non-container flattens to its `str()`, and an empty list or empty dict to the empty string |
| Flatten.FlattenOneMember | hh_vacancy_extractor/models/models.py:222-223 | a one-member dict flattens to `k: str(v)` |
| Flatten.FlattenObjectAppend | hh_vacancy_extractor/models/models.py:222-223 | dict entries are joined with `"; "` in insertion order, one level deep |
| Flatten.FlattenStringsAppend | hh_vacancy_extractor/models/models.py:225-226 | a list of strings is joined with `", "` in list order |
| Flatten.StringsRuleIsGeneric | hh_vacancy_extractor/models/models.py:225-234 | the list-of-strings rule agrees with joining `str(x)`, since a string prints as itself |
| Flatten.RecordTextOwnKeys | hh_vacancy_extractor/models/models.py:228-230 | a dict printed under its own keys gives its entries joined with `", "` |
| Flatten.RecordEntryMissing | hh_vacancy_extractor/models/models.py:230 | a first-element key absent from a later element prints as `k: ` |
| Flatten.FlattenRecordsAppend | hh_vacancy_extractor/models/models.py:227-232 | a list of dicts gives one section per element, in order, each under the first element's keys, the sections separated by space, vertical bar, space |
| Flatten.FlattenOneRecord | hh_vacancy_extractor/models/models.py:227-232 | a one-dict list prints the dict's entries joined with `", "` |
| Flatten.FlattenMixed | hh_vacancy_extractor/models/models.py:233-234 | a list that is neither all strings nor all dicts joins `str(x)` with `", "` |
| Flatten.ObjectExample | hh_vacancy_extractor/models/models.py:222-223 | `{"x": 2, "y": 3}` flattens to `x: 2; y: 3` |
| Flatten.StringsExample | hh_vacancy_extractor/models/models.py:225-226 | `["ops", "eng"]` flattens to `ops, eng` |
| Flatten.RecordsExample | hh_vacancy_extractor/models/models.py:227-232 | `[{"k": 1}, {"k": 2}]` flattens to `k: 1`, then space, vertical bar, space, then `k: 2` |
| Extract.Unwrap | hh_vacancy_extractor/models/models.py:171-172 | a dict with an `items` key is replaced by the value stored under it; any other value is kept |
| Extract.Records | hh_vacancy_extractor/models/models.py:171-178 | the record set is the list under `items` (or that value alone), the document itself when it is a list, and otherwise the document as the single record |
| Extract.RecordsOfEnvelope | hh_vacancy_extractor/models/models.py:171-178 | for every dict holding `items`, the record set is the list stored there, or the stored value alone when it is not a list |
| Extract.EnvelopeExample | hh_vacancy_extractor/models/models.py:171-172 | `{"items": [A, B], "found": 2, "pages": 1}` has the record set `[A, B]` |
| Extract.EnvelopeOfObject | hh_vacancy_extractor/models/models.py:171-178 | unwrapping does not look at the value: a dict under `items` becomes the single record |
| Extract.SingleRecord | hh_vacancy_extractor/models/models.py:178 | a non-list without an `items` envelope is a one-record set |
| Extract.Cell | hh_vacancy_extractor/models/models.py:181-184 | a miss stores None; with flattening off, or for a scalar, the resolved value is stored unchanged; a container under flattening becomes its flattened text |
| Extract.ScalarCellUnchanged | hh_vacancy_extractor/models/models.py:182-184 | a scalar cell is the same with and without flattening |
| Extract.Row | hh_vacancy_extractor/models/models.py:179-184 | a row has exactly one cell per field |
| Extract.BuildRows | hh_vacancy_extractor/models/models.py:177-185 | the nested loop makes one row per record, each with one cell per field, and cell `(i, j)` is field `j` resolved in record `i` |
| Extract.ExtractTable | hh_vacancy_extractor/models/models.py:171-185 | fails exactly for all-fields on an empty record set; otherwise one row per record, every row as long as the header, the header is the given or discovered fields, and cells align with the header |
| Extract.FirstRowComplete | hh_vacancy_extractor/models/models.py:174-181 | with all fields requested and no key of the first record holding a `.`, every header field resolves in the first record |
| Extract.IndexCellExample | hh_vacancy_extractor/models/models.py:181-184 | field `tags.0` of `{"tags": ["x", "y"]}` with flattening on is the scalar `"x"` |
| Extract.ObjectCellExample | hh_vacancy_extractor/models/models.py:181-184 | field `b` of `{"a": 1, "b": {"x": 2, "y": 3}}` with flattening on is `x: 2; y: 3` |
| RequestBuilder.Filter | hh_vacancy_extractor/models/models.py:40 | the kept list is an order-preserving sub-list of the input with only allowed values and every allowed occurrence |
| RequestBuilder.SelectionUnique | hh_vacancy_extractor/models/models.py:40 | only one list meets that description, so it pins down the filtered list |
| RequestBuilder.FilterIdempotent | hh_vacancy_extractor/models/models.py:40 | filtering an already filtered list changes nothing |
| RequestBuilder.SetFiltered | hh_vacancy_extractor/models/models.py:40-43 | no other key changes; an allowed input value makes the key hold the selection; otherwise the map is unchanged |
| RequestBuilder.SetExperience | hh_vacancy_extractor/models/models.py:38-43 | filtered update of `experience` against the four experience levels |
| RequestBuilder.SetEmploymentForm | hh_vacancy_extractor/models/models.py:45-50 | filtered update of `employment_form` against the four forms |
| RequestBuilder.SetLabel | hh_vacancy_extractor/models/models.py:56-65 | filtered update of `label` against the seven labels |
| RequestBuilder.SetWorkSchedule | hh_vacancy_extractor/models/models.py:67-78 | filtered update of `work_schedule_by_days` against the fourteen schedules |
| RequestBuilder.SetWorkingHours | hh_vacancy_extractor/models/models.py:80-90 | filtered update of `working_hours` against the fourteen values |
| RequestBuilder.SetWorkFormat | hh_vacancy_extractor/models/models.py:92-97 | filtered update of `work_format` against the four formats |
| RequestBuilder.SetPeriod | hh_vacancy_extractor/models/models.py:99-102 | `period` is written only for 3 or 7, and nothing else changes |
| RequestBuilder.SetSearchFields | hh_vacancy_extractor/models/models.py:24-27 | the whole list, unfiltered, is stored when it names `name`, `company_name` or `description`; otherwise the map is unchanged |
| RequestBuilder.SetText | hh_vacancy_extractor/models/models.py:20-22 | `text` holds the text, and nothing else changes |
| RequestBuilder.SetOnlyWithSalary | hh_vacancy_extractor/models/models.py:29-31 | `only_with_salary` holds `'true'` or `'false'`, and nothing else changes |
| RequestBuilder.SetAcceptTemporary | hh_vacancy_extractor/models/models.py:52-54 | `accept_temporary` holds `'true'` or `'false'`, and nothing else changes |
| RequestBuilder.Upper | hh_vacancy_extractor/models/models.py:35 | upper-casing keeps the length, leaves no lower-case ASCII letter, and keeps every other character |
| RequestBuilder.SetSalary | hh_vacancy_extractor/models/models.py:33-36 | `salary` holds the amount and `currency` the upper-cased code; nothing else changes |
| RequestBuilder.SetPage | hh_vacancy_extractor/models/models.py:104-106 | `page` holds the page, and nothing else changes |
| RequestBuilder.SetPerPage | hh_vacancy_extractor/models/models.py:108-110 | `per_page` holds the size, and nothing else changes |
| RequestBuilder.FilteredSettersCommute | hh_vacancy_extractor/models/models.py:38-97 | list setters on different keys can be applied in either order |
| RequestBuilder.SetFilteredTwice | hh_vacancy_extractor/models/models.py:38-43 | calling a list setter twice with the same input equals calling it once |
| RequestBuilder.DefaultsHaveNoFilters | hh_vacancy_extractor/models/models.py:9-18 | a fresh builder builds exactly the seven default keys, with their values (`host` `hh.ru`, `page` 0, `per_page` 100, the four flags), and no filter key |
| RequestBuilder.ExperienceExample | hh_vacancy_extractor/models/models.py:38-43 | `["junior", "moreThan6", "noExperience"]` stores `["moreThan6", "noExperience"]` |

## Left out

- `HHDataFetcher.fetch_vacancies` (models.py:244-285) is not modelled. It is HTTP, query-string encoding and the
  per-page error loop.
- Reading the input file and `json.load` (models.py:168-169) are not modelled. The model starts from a parsed `Json`
  value.
- `_write_to_csv` (models.py:237-241) is not modelled. It is file output plus the `csv` module's quoting. The model
  stops at the header and the rows.
- `JsonToCsvBuilder` (models.py:116-153), `main.py`, `controllers/controllers.py` and `views/views.py` are not
  modelled. They are configuration plumbing, argument parsing and console output.
- The "neither all fields nor a field list" case is not modelled. It is rejected by the controller
  (controllers.py:72-74) before the extractor runs, and `Columns` has only the two valid modes.
- Discovery.Discover, Discovery.DiscoverMembers, Discovery.DiscoverElems: their own contracts state only where
  emitted paths may lead. That every key and element is emitted, in order, is stated by `Discovery.MemberBlock`,
  `Discovery.ElemBlock`, `Discovery.MembersExhaust` and `Discovery.ElemsExhaust` instead.
- JSON numbers are integers. Floats and Python's float formatting are not modelled.
- Json.Str: strings print as themselves, and None/True/False/integers print as Python prints them. Containers print
  as their `repr`, with the quote choice and ASCII escapes (`\\`, the quote, `\t`, `\n`, `\r`, `\xNN`). Python's
  escaping of non-ASCII non-printable characters is not modelled.
- Resolution.Step: `str.isdigit` is modelled on ASCII digits only. Python also accepts other Unicode digits, for
  which `int()` either parses them or raises `ValueError` (superscripts such as `²`).
- RequestBuilder.Upper: only ASCII letters are upper-cased. Unicode case mapping is not modelled.
- `HHRequestBuilder.build` is the identity on the map (`RequestBuilder.Build`). The map's key order, which matters
  only to URL encoding, is not modelled.
