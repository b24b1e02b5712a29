/** `HHRequestBuilder`: a parameter map for the vacancy search, built by
    setters. The list-valued setters keep only the allowed values, in input
    order, and write their key only when something survives. */
module RequestBuilder {

  /** A parameter value: text, a number, or a list of texts. */
  datatype Param = PText(s: string) | PNum(n: int) | PList(xs: seq<string>)

  type Params = map<string, Param>

  /** The parameters a fresh builder starts with. */
  const Defaults: Params := map[
    "host" := PText("hh.ru"),
    "page" := PNum(0),
    "per_page" := PNum(100),
    "responses_count_enabled" := PText("true"),
    "with_chat_info" := PText("true"),
    "check_personal_data_resale" := PText("false"),
    "with_skills_match" := PText("false")
  ]

  const ExperienceLevels: seq<string> := ["noExperience", "between1And3", "between3And6", "moreThan6"]
  const EmploymentForms: seq<string> := ["FLY_IN_FLY_OUT", "PROJECT", "PART", "FULL"]
  const Labels: seq<string> :=
    ["internship", "night_shifts", "accept_kids", "accept_handicapped", "not_from_agency",
     "with_address", "accredited_it"]
  const WorkSchedules: seq<string> :=
    ["WEEKEND", "FIVE_ON_TWO_OFF", "TWO_ON_TWO_OFF", "SIX_ON_ONE_OFF", "THREE_ON_THREE_OFF",
     "FOUR_ON_FOUR_OFF", "FOUR_ON_THREE_OFF", "FOUR_ON_TWO_OFF", "THREE_ON_TWO_OFF",
     "TWO_ON_ONE_OFF", "ONE_ON_THREE_OFF", "ONE_ON_TWO_OFF", "FLEXIBLE", "OTHER"]
  const WorkingHours: seq<string> :=
    ["OTHER", "FLEXIBLE", "HOURS_24", "HOURS_12", "HOURS_11", "HOURS_10", "HOURS_9", "HOURS_8",
     "HOURS_7", "HOURS_6", "HOURS_5", "HOURS_4", "HOURS_3", "HOURS_2"]
  const WorkFormats: seq<string> := ["ON_SITE", "REMOTE", "HYBRID", "FIELD_WORK"]

  /** `ys` is `xs` with some elements left out, the rest in their order. */
  predicate IsSubseq(ys: seq<string>, xs: seq<string>)
    decreases |xs|
  {
    if |ys| == 0 then true
    else if |xs| == 0 then false
    else (ys[0] == xs[0] && IsSubseq(ys[1..], xs[1..])) || IsSubseq(ys, xs[1..])
  }

  /** What a filtered selection must be: an order-preserving sub-list of the
      input, made only of allowed values, keeping every allowed occurrence. */
  predicate IsSelection(ys: seq<string>, xs: seq<string>, allow: seq<string>) {
    && IsSubseq(ys, xs)
    && (forall i :: 0 <= i < |ys| ==> ys[i] in allow)
    && (forall x :: x in allow ==> multiset(ys)[x] == multiset(xs)[x])
  }

  /** `[x for x in xs if x in allow]`. */
  function Filter(xs: seq<string>, allow: seq<string>): (ys: seq<string>)
    ensures IsSelection(ys, xs, allow)
    decreases |xs|
  {
    if |xs| == 0 then []
    else
      var rest := Filter(xs[1..], allow);
      assert xs == [xs[0]] + xs[1..];
      if xs[0] in allow then
        var ys := [xs[0]] + rest;
        assert ys[1..] == rest;
        ys
      else
        rest
  }

  lemma {:induction false} SubseqCount(ys: seq<string>, xs: seq<string>, x: string)
    requires IsSubseq(ys, xs)
    ensures multiset(ys)[x] <= multiset(xs)[x]
    decreases |xs|
  {
    if |ys| > 0 {
      assert xs == [xs[0]] + xs[1..];
      if ys[0] == xs[0] && IsSubseq(ys[1..], xs[1..]) {
        assert ys == [ys[0]] + ys[1..];
        SubseqCount(ys[1..], xs[1..], x);
      } else {
        SubseqCount(ys, xs[1..], x);
      }
    }
  }

  /** The selection is unique: any list meeting `IsSelection` is the one
      `Filter` returns, so `IsSelection` fully specifies the setters' lists. */
  lemma {:induction false} SelectionUnique(ys: seq<string>, xs: seq<string>, allow: seq<string>)
    requires IsSelection(ys, xs, allow)
    ensures ys == Filter(xs, allow)
    decreases |xs|
  {
    if |xs| == 0 {
    } else {
      var x := xs[0];
      assert xs == [x] + xs[1..];
      if |ys| == 0 {
        if x in allow {
          assert false;
        }
        SelectionUnique(ys, xs[1..], allow);
      } else if ys[0] == x && IsSubseq(ys[1..], xs[1..]) {
        assert ys == [x] + ys[1..];
        forall y | 0 <= y < |ys[1..]| ensures ys[1..][y] in allow { assert ys[1..][y] == ys[y + 1]; }
        SelectionUnique(ys[1..], xs[1..], allow);
      } else {
        assert IsSubseq(ys, xs[1..]);
        if x in allow {
          SubseqCount(ys, xs[1..], x);
          assert false;
        }
        SelectionUnique(ys, xs[1..], allow);
      }
    }
  }

  /** Filtering twice keeps what filtering once kept. */
  lemma FilterIdempotent(xs: seq<string>, allow: seq<string>)
    ensures Filter(Filter(xs, allow), allow) == Filter(xs, allow)
  {
    var ys := Filter(xs, allow);
    SubseqRefl(ys);
    SelectionUnique(ys, ys, allow);
  }

  lemma {:induction false} SubseqRefl(ys: seq<string>)
    ensures IsSubseq(ys, ys)
    decreases |ys|
  {
    if |ys| > 0 {
      SubseqRefl(ys[1..]);
    }
  }

  /** The map agrees with `p` on key `k`. */
  predicate SameOn(p: Params, r: Params, k: string) {
    (k in p <==> k in r) && (k in p ==> p[k] == r[k])
  }

  /** What every list setter does: no key but its own changes; when an
      allowed value is in the input, its key holds the selection; otherwise
      the map is left as it was. */
  ghost predicate FilteredUpdate(p: Params, r: Params, key: string, allow: seq<string>, input: seq<string>) {
    && (forall k :: k != key ==> SameOn(p, r, k))
    && ((exists i :: 0 <= i < |input| && input[i] in allow) ==>
          key in r && r[key].PList? && IsSelection(r[key].xs, input, allow))
    && ((forall i :: 0 <= i < |input| ==> input[i] !in allow) ==> r == p)
  }

  /** The shared body of the list setters. */
  function SetFiltered(p: Params, key: string, allow: seq<string>, input: seq<string>): (r: Params)
    ensures FilteredUpdate(p, r, key, allow, input)
  {
    var filtered := Filter(input, allow);
    if |filtered| > 0 then p[key := PList(filtered)]
    else
      assert forall i :: 0 <= i < |input| ==> input[i] !in allow by {
        forall i | 0 <= i < |input| ensures input[i] !in allow {
          assert input[i] in multiset(input);
        }
      }
      p
  }

  /** `set_experience`. */
  function SetExperience(p: Params, levels: seq<string>): (r: Params)
    ensures FilteredUpdate(p, r, "experience", ExperienceLevels, levels)
  {
    SetFiltered(p, "experience", ExperienceLevels, levels)
  }

  /** `set_employment_form`. */
  function SetEmploymentForm(p: Params, forms: seq<string>): (r: Params)
    ensures FilteredUpdate(p, r, "employment_form", EmploymentForms, forms)
  {
    SetFiltered(p, "employment_form", EmploymentForms, forms)
  }

  /** `set_label`. */
  function SetLabel(p: Params, labels: seq<string>): (r: Params)
    ensures FilteredUpdate(p, r, "label", Labels, labels)
  {
    SetFiltered(p, "label", Labels, labels)
  }

  /** `set_work_schedule`: stored under `work_schedule_by_days`. */
  function SetWorkSchedule(p: Params, schedules: seq<string>): (r: Params)
    ensures FilteredUpdate(p, r, "work_schedule_by_days", WorkSchedules, schedules)
  {
    SetFiltered(p, "work_schedule_by_days", WorkSchedules, schedules)
  }

  /** `set_working_hours`. */
  function SetWorkingHours(p: Params, hours: seq<string>): (r: Params)
    ensures FilteredUpdate(p, r, "working_hours", WorkingHours, hours)
  {
    SetFiltered(p, "working_hours", WorkingHours, hours)
  }

  /** `set_work_format`. */
  function SetWorkFormat(p: Params, formats: seq<string>): (r: Params)
    ensures FilteredUpdate(p, r, "work_format", WorkFormats, formats)
  {
    SetFiltered(p, "work_format", WorkFormats, formats)
  }

  /** `set_period`: only a 3- or 7-day window is written. */
  function SetPeriod(p: Params, days: int): (r: Params)
    ensures forall k :: k != "period" ==> SameOn(p, r, k)
    ensures days == 3 || days == 7 ==> "period" in r && r["period"] == PNum(days)
    ensures days != 3 && days != 7 ==> r == p
  {
    if days == 3 || days == 7 then p["period" := PNum(days)] else p
  }

  /** `set_search_fields`: the whole list is stored, unfiltered, when it
      names at least one of `name`, `company_name`, `description`. */
  function SetSearchFields(p: Params, fields: seq<string>): (r: Params)
    ensures forall k :: k != "search_field" ==> SameOn(p, r, k)
    ensures ("name" in fields || "company_name" in fields || "description" in fields) ==>
              "search_field" in r && r["search_field"] == PList(fields)
    ensures !("name" in fields || "company_name" in fields || "description" in fields) ==> r == p
  {
    if "name" in fields || "company_name" in fields || "description" in fields then
      p["search_field" := PList(fields)]
    else p
  }

  /** `set_text`. */
  function SetText(p: Params, text: string): (r: Params)
    ensures forall k :: k != "text" ==> SameOn(p, r, k)
    ensures "text" in r && r["text"] == PText(text)
  {
    p["text" := PText(text)]
  }

  /** Python's `'true' if flag else 'false'`. */
  function FlagText(flag: bool): string {
    if flag then "true" else "false"
  }

  /** `set_only_with_salary`. */
  function SetOnlyWithSalary(p: Params, flag: bool): (r: Params)
    ensures forall k :: k != "only_with_salary" ==> SameOn(p, r, k)
    ensures "only_with_salary" in r && r["only_with_salary"] == PText(FlagText(flag))
  {
    p["only_with_salary" := PText(FlagText(flag))]
  }

  /** `set_accept_temporary`. */
  function SetAcceptTemporary(p: Params, flag: bool): (r: Params)
    ensures forall k :: k != "accept_temporary" ==> SameOn(p, r, k)
    ensures "accept_temporary" in r && r["accept_temporary"] == PText(FlagText(flag))
  {
    p["accept_temporary" := PText(FlagText(flag))]
  }

  /** `str.upper()` on ASCII letters; other characters are kept. */
  function Upper(s: string): (u: string)
    ensures |u| == |s|
    ensures forall i :: 0 <= i < |s| ==> !('a' <= u[i] <= 'z')
    ensures forall i :: 0 <= i < |s| && !('a' <= s[i] <= 'z') ==> u[i] == s[i]
  {
    seq(|s|, i requires 0 <= i < |s| =>
      if 'a' <= s[i] <= 'z' then (s[i] as int - 32) as char else s[i])
  }

  /** `set_salary`: the amount and the upper-cased currency code. */
  function SetSalary(p: Params, amount: int, currency: string): (r: Params)
    ensures forall k :: k != "salary" && k != "currency" ==> SameOn(p, r, k)
    ensures "salary" in r && r["salary"] == PNum(amount)
    ensures "currency" in r && r["currency"] == PText(Upper(currency))
  {
    p["salary" := PNum(amount)]["currency" := PText(Upper(currency))]
  }

  /** `set_page`. */
  function SetPage(p: Params, page: int): (r: Params)
    ensures forall k :: k != "page" ==> SameOn(p, r, k)
    ensures "page" in r && r["page"] == PNum(page)
  {
    p["page" := PNum(page)]
  }

  /** `set_per_page`. */
  function SetPerPage(p: Params, perPage: int): (r: Params)
    ensures forall k :: k != "per_page" ==> SameOn(p, r, k)
    ensures "per_page" in r && r["per_page"] == PNum(perPage)
  {
    p["per_page" := PNum(perPage)]
  }

  /** `build`: the map as it stands. */
  function Build(p: Params): Params {
    p
  }

  /** Setters on different keys commute: each touches only its own key. */
  lemma FilteredSettersCommute(p: Params, k1: string, a1: seq<string>, in1: seq<string>,
                               k2: string, a2: seq<string>, in2: seq<string>)
    requires k1 != k2
    ensures SetFiltered(SetFiltered(p, k1, a1, in1), k2, a2, in2)
         == SetFiltered(SetFiltered(p, k2, a2, in2), k1, a1, in1)
  {
  }

  /** Calling a list setter twice with the same input is calling it once. */
  lemma SetFilteredTwice(p: Params, key: string, allow: seq<string>, input: seq<string>)
    ensures SetFiltered(SetFiltered(p, key, allow, input), key, allow, input)
         == SetFiltered(p, key, allow, input)
  {
  }

  /** A fresh builder's `build` with nothing set is exactly the defaults, and
      none of the filtered keys are present yet. */
  lemma DefaultsHaveNoFilters()
    ensures Build(Defaults) == Defaults
    ensures Defaults.Keys == {"host", "page", "per_page", "responses_count_enabled", "with_chat_info",
                              "check_personal_data_resale", "with_skills_match"}
    ensures "experience" !in Defaults && "label" !in Defaults && "period" !in Defaults
    ensures Defaults["per_page"] == PNum(100) && Defaults["page"] == PNum(0)
    ensures Defaults["host"] == PText("hh.ru") && Defaults["responses_count_enabled"] == PText("true")
    ensures Defaults["with_chat_info"] == PText("true")
    ensures Defaults["check_personal_data_resale"] == PText("false")
    ensures Defaults["with_skills_match"] == PText("false")
  {
  }

  /** `set_experience(["junior", "moreThan6", "noExperience"])` keeps the two
      valid levels in input order. */
  lemma ExperienceExample()
    ensures SetExperience(Defaults, ["junior", "moreThan6", "noExperience"])
            == Defaults["experience" := PList(["moreThan6", "noExperience"])]
  {
    var input := ["junior", "moreThan6", "noExperience"];
    assert Filter([], ExperienceLevels) == [];
    assert Filter(["noExperience"], ExperienceLevels) == ["noExperience"] by {
      assert "noExperience" in ExperienceLevels;
      assert ["noExperience"][1..] == [];
    }
    assert Filter(["moreThan6", "noExperience"], ExperienceLevels) == ["moreThan6", "noExperience"] by {
      assert "moreThan6" in ExperienceLevels;
      assert ["moreThan6", "noExperience"][1..] == ["noExperience"];
    }
    assert "junior" !in ExperienceLevels;
    assert input[1..] == ["moreThan6", "noExperience"];
    assert Filter(input, ExperienceLevels) == ["moreThan6", "noExperience"];
  }
}
