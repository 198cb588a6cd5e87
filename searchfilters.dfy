/** The course search form: on submit, empty fields are dropped one key at a time and the rest
    is handed on as search filters; clearing resets every field. */
module SearchForm {
  import opened Wrappers
  import opened Seqs
  import opened Text
  import opened Types

  /** A form field's value: untouched or cleared (`undefined`), typed text, or a chosen day. */
  datatype FormValue = Unset | TextValue(s: string) | NumberValue(n: int)

  /** The test in `handleSearch`: text whose trimmed form is non-empty, or a non-zero number. */
  predicate Kept(v: FormValue) {
    (v.TextValue? && Trim(v.s) != "") || (v.NumberValue? && v.n != 0)
  }

  /** The filters a submit produces. */
  function Cleaned(values: map<string, FormValue>): (r: map<string, FormValue>)
    ensures forall k :: k in r <==> k in values && Kept(values[k])
    ensures forall k :: k in r ==> r[k] == values[k]
  {
    map k | k in values && Kept(values[k]) :: values[k]
  }

  /** `handleSearch`: `Object.keys(values).forEach`, copying each kept value as it is (text is
      not trimmed). */
  method HandleSearch(keys: seq<string>, values: map<string, FormValue>) returns (filters: map<string, FormValue>)
    requires forall k :: k in values <==> k in keys
    ensures filters == Cleaned(values)
  {
    filters := map[];
    var i := 0;
    while i < |keys|
      invariant 0 <= i <= |keys|
      invariant forall k :: k in filters <==> k in keys[..i] && Kept(values[k])
      invariant forall k :: k in filters ==> filters[k] == values[k]
    {
      var key := keys[i];
      var v := values[key];
      if v.TextValue? && v.s != "" && Trim(v.s) != "" {
        filters := filters[key := v];
      } else if v.NumberValue? && v.n != 0 {
        filters := filters[key := v];
      }
      assert keys[..i + 1] == keys[..i] + [key];
      i := i + 1;
    }
    assert keys[..i] == keys;
  }

  /** Submitting the filters again changes nothing: every kept value passes its own test. */
  lemma CleanedIdempotent(values: map<string, FormValue>)
    ensures Cleaned(Cleaned(values)) == Cleaned(values)
  {
  }

  /** Text made only of white space is dropped, and kept text keeps its spaces. */
  lemma SpacesDropped(values: map<string, FormValue>, k: string)
    requires k in values && values[k].TextValue?
    ensures k in Cleaned(values) <==> !AllSpace(values[k].s)
    ensures k in Cleaned(values) ==> Cleaned(values)[k].s == values[k].s
  {
    TrimEmptyIff(values[k].s);
  }

  /** The fields of the form. */
  const FormKeys: set<string> := {"name", "teacher", "class_name", "room", "day"}

  /** The filters as `SearchFilters`: a key the interface names is read, any other ignored. */
  function AsSearchFilters(m: map<string, FormValue>): SearchFilters {
    SearchFilters(TextAt(m, "keyword"), TextAt(m, "subject"), TextAt(m, "teacher"),
      TextAt(m, "class"), TextAt(m, "room"), NumberAt(m, "day"), NumberAt(m, "period"))
  }

  function TextAt(m: map<string, FormValue>, k: string): Option<string> {
    if k in m && m[k].TextValue? then Some(m[k].s) else None
  }

  function NumberAt(m: map<string, FormValue>, k: string): Option<int> {
    if k in m && m[k].NumberValue? then Some(m[k].n) else None
  }

  /** The form names its fields `name`, `class_name` and so on, while the course filter reads
      `keyword`, `day` and `period`: of everything typed into the form only the day narrows the
      course list. */
  lemma OnlyDayNarrows(courses: seq<Course>, values: map<string, FormValue>)
    requires values.Keys <= FormKeys
    ensures var kept := FilterCourses(courses, AsSearchFilters(Cleaned(values)));
      forall c :: c in kept <==> (c in courses &&
        ("day" in values && values["day"].NumberValue? && values["day"].n != 0 ==> c.day == values["day"].n))
  {
    var m := Cleaned(values);
    assert "keyword" !in values && "period" !in values;
    var f := AsSearchFilters(m);
    assert f.keyword.None? && f.period.None?;
    if "day" in values && values["day"].NumberValue? && values["day"].n != 0 {
      assert f.day == Some(values["day"].n);
    } else {
      assert !TruthyNumber(f.day);
    }
  }

  /** What the form hands its parent. */
  datatype Event = Searched(filters: map<string, FormValue>) | Cleared

  class SearchFormState {
    var values: map<string, FormValue>

    constructor ()
      ensures values == map[]
    {
      values := map[];
    }

    /** Submitting the form. */
    method Submit(keys: seq<string>) returns (e: Event)
      requires forall k :: k in values <==> k in keys
      ensures e == Searched(Cleaned(values))
    {
      var filters := HandleSearch(keys, values);
      e := Searched(filters);
    }

    /** `handleClear`: every field back to `undefined`, then `onClear`. */
    method HandleClear() returns (e: Event)
      modifies this
      ensures values.Keys == old(values).Keys && forall k :: k in values ==> values[k] == Unset
      ensures e == Cleared
    {
      values := map k | k in values :: Unset;
      e := Cleared;
    }
  }

  /** A submit straight after clearing yields no filters. */
  lemma SearchAfterClear(values: map<string, FormValue>)
    requires forall k :: k in values ==> values[k] == Unset
    ensures Cleaned(values) == map[]
  {
  }
}
