/** widgets/calendar.py: the calendar's today, shown and highlighted dates,
    both at creation and in the `lvgl.calendar.update` action. */
module CalendarWidget {
  import opened Wrappers
  import opened Strings
  import opened Emit
  import Helpers

  const KeyYear := "year"
  const KeyMonth := "month"
  const KeyDay := "day"

  /** A date mapping after `date_schema`: each field may be missing unless
      the schema requires it. */
  datatype Date = Date(year: Option<int>, month: Option<int>, day: Option<int>)

  /** The truth value of the date mapping: false only for `{}`. */
  predicate NonEmpty(d: Date) {
    d.year.Some? || d.month.Some? || d.day.Some?
  }

  predicate Complete(d: Date) {
    d.year.Some? && d.month.Some? && d.day.Some?
  }

  /** A highlighted date: the list schema requires all three fields. */
  type FullDate = d: Date | Complete(d) witness Date(Some(2024), Some(1), Some(1))

  /** One field of `date_schema`: an integer in [lo, hi] when present, and
      present when required. */
  function Field(d: Config, key: string, lo: int, hi: int, required: bool): (r: Result<Option<int>, string>)
    ensures r.Ok? <==> if key in d then d[key].Int? && lo <= d[key].i <= hi else !required
    ensures r.Ok? && key in d ==> r.value == Some(d[key].i)
    ensures r.Ok? && key !in d ==> r.value == None
  {
    if key in d then
      if d[key].Int? && lo <= d[key].i <= hi then Ok(Some(d[key].i))
      else Err("value must be in range [" + IntToString(lo) + ", " + IntToString(hi) + "] for " + key)
    else if required then Err("required key not provided: " + key)
    else Ok(None)
  }

  /** `date_schema(required)`: no keys besides year, month and day; year in
      1970..2099, month in 1..12, day in 1..31; all three present when
      required. */
  function DateSchema(d: Config, required: bool): (r: Result<Date, string>)
    ensures r.Ok? ==> forall k | k in d :: k == KeyYear || k == KeyMonth || k == KeyDay
    ensures r.Ok? && required ==> Complete(r.value)
    ensures r.Ok? && r.value.year.Some? ==> 1970 <= r.value.year.value <= 2099
    ensures r.Ok? && r.value.month.Some? ==> 1 <= r.value.month.value <= 12
    ensures r.Ok? && r.value.day.Some? ==> 1 <= r.value.day.value <= 31
    ensures r.Ok? ==> (NonEmpty(r.value) <==> d != map[])
  {
    if exists k | k in d :: k != KeyYear && k != KeyMonth && k != KeyDay then Err("extra keys not allowed")
    else
      var y := Field(d, KeyYear, 1970, 2099, required);
      var m := Field(d, KeyMonth, 1, 12, required);
      var dd := Field(d, KeyDay, 1, 31, required);
      if y.Err? then Err(y.error)
      else if m.Err? then Err(m.error)
      else if dd.Err? then Err(dd.error)
      else
        var r := Date(y.value, m.value, dd.value);
        assert d != map[] ==> NonEmpty(r) by {
          if d != map[] {
            var k :| k in d;
          }
        }
        Ok(r)
  }

  /** A calendar configuration after `CALENDAR_SCHEMA` (the update action's
      schema has the same three keys). An absent `highlighted_dates` and an
      empty list are both `[]`. */
  datatype CalendarConf = CalendarConf(today: Option<Date>, showed: Option<Date>, highlighted: seq<FullDate>)

  /** The call that sets a date; missing fields become 2024, 1 and 1. */
  function DateCall(fn: string, obj: string, d: Date): Op {
    Call(fn, [Var(obj), Num(d.year.GetOr(2024)), Num(d.month.GetOr(1)), Num(d.day.GetOr(1))])
  }

  function DateOps(fn: string, obj: string, d: Option<Date>): seq<Op> {
    if d.Some? && NonEmpty(d.value) then [DateCall(fn, obj, d.value)] else []
  }

  /** The initialiser text of one highlighted date, `{y, m, d}`. */
  function Element(d: FullDate): string
  {
    "{" + IntToString(d.year.value) + ", " + IntToString(d.month.value) + ", " + IntToString(d.day.value) + "}"
  }

  /** The `dates_elements` list, built front to back. */
  function Elements(ds: seq<FullDate>): seq<string>
    decreases |ds|
  {
    if |ds| == 0 then [] else Elements(ds[..|ds| - 1]) + [Element(ds[|ds| - 1])]
  }

  /** One element per highlighted date, in list order. */
  lemma {:induction false} ElementsPointwise(ds: seq<FullDate>)
    ensures |Elements(ds)| == |ds|
    ensures forall k :: 0 <= k < |ds| ==> Elements(ds)[k] == Element(ds[k])
    decreases |ds|
  {
    if |ds| > 0 {
      var init := ds[..|ds| - 1];
      ElementsPointwise(init);
      forall k | 0 <= k < |ds|
        ensures Elements(ds)[k] == Element(ds[k])
      {
        if k < |ds| - 1 {
          assert ds[k] == init[k];
        }
      }
    }
  }

  /** The static array of highlighted dates, `{` + the elements joined by
      `", "` + `}`. */
  function ArrayDecl(arrayId: string, elements: seq<string>): string {
    "static lv_calendar_date_t " + arrayId + "[] = {" + Join(", ", elements) + "}"
  }

  /** The array declaration and the call that hands it to the calendar. */
  function HighlightedOps(obj: string, ds: seq<FullDate>, suffix: string): seq<Op>
  {
    if |ds| == 0 then []
    else [ Raw(ArrayDecl(obj + suffix, Elements(ds))),
           Call("calendar_set_highlighted_dates", [Var(obj), Lit(obj + suffix), Num(|ds|)]) ]
  }

  /** What `to_code` (suffix `_highlighted_dates`) and the update action
      (suffix `_highlighted_dates_update`) emit. */
  function CalendarOps(obj: string, c: CalendarConf, suffix: string): seq<Op>
  {
    DateOps("calendar_set_today_date", obj, c.today)
    + DateOps("calendar_set_showed_date", obj, c.showed)
    + HighlightedOps(obj, c.highlighted, suffix)
  }

  /** The body shared by `to_code` and `do_calendar_update`. */
  method DatesToCode(code: Code, obj: string, c: CalendarConf, suffix: string)
    modifies code
    ensures code.ops == old(code.ops) + CalendarOps(obj, c, suffix)
    ensures code.defines == old(code.defines) && code.warnings == old(code.warnings)
  {
    ghost var o0 := code.ops;
    SetDate(code, "calendar_set_today_date", obj, c.today);
    SetDate(code, "calendar_set_showed_date", obj, c.showed);
    HighlightedToCode(code, obj, c.highlighted, suffix);
    ghost var t, s, h := DateOps("calendar_set_today_date", obj, c.today),
      DateOps("calendar_set_showed_date", obj, c.showed), HighlightedOps(obj, c.highlighted, suffix);
    assert code.ops == o0 + t + s + h;
    AppendAssoc(o0, t + s, h);
    AppendAssoc(o0, t, s);
  }

  /** One of the two date calls, made only for a non-empty date. */
  method SetDate(code: Code, fn: string, obj: string, d: Option<Date>)
    modifies code
    ensures code.ops == old(code.ops) + DateOps(fn, obj, d)
    ensures code.defines == old(code.defines) && code.warnings == old(code.warnings)
  {
    if d.Some? && NonEmpty(d.value) {
      var date := d.value;
      code.Call(fn, [Var(obj), Num(date.year.GetOr(2024)), Num(date.month.GetOr(1)), Num(date.day.GetOr(1))]);
    }
  }

  /** The `dates_elements` loop: one `{y, m, d}` string per date. */
  method BuildElements(highlighted: seq<FullDate>) returns (elements: seq<string>)
    ensures elements == Elements(highlighted)
  {
    elements := [];
    var i := 0;
    while i < |highlighted|
      invariant 0 <= i <= |highlighted|
      invariant elements == Elements(highlighted[..i])
    {
      var date := highlighted[i];
      var element := "{" + IntToString(date.year.value) + ", " + IntToString(date.month.value) + ", "
                     + IntToString(date.day.value) + "}";
      assert highlighted[..i + 1][..i] == highlighted[..i] && highlighted[..i + 1][i] == date;
      elements := elements + [element];
      i := i + 1;
    }
    assert highlighted[..i] == highlighted;
  }

  method HighlightedToCode(code: Code, obj: string, highlighted: seq<FullDate>, suffix: string)
    modifies code
    ensures code.ops == old(code.ops) + HighlightedOps(obj, highlighted, suffix)
    ensures code.defines == old(code.defines) && code.warnings == old(code.warnings)
  {
    if |highlighted| > 0 {
      var datesCount := |highlighted|;
      var arrayId := obj + suffix;
      var elements := BuildElements(highlighted);
      code.Add(Raw("static lv_calendar_date_t " + arrayId + "[] = {" + Join(", ", elements) + "}"));
      code.Call("calendar_set_highlighted_dates", [Var(obj), Lit(arrayId), Num(datesCount)]);
    }
  }

  /** `CalendarType.to_code`. */
  method ToCode(code: Code, uses: Helpers.Uses, obj: string, c: CalendarConf)
    modifies code, uses
    ensures code.ops == old(code.ops) + CalendarOps(obj, c, "_highlighted_dates")
    ensures code.defines == old(code.defines) && code.warnings == old(code.warnings)
    ensures uses.componentsRequired == old(uses.componentsRequired) + {"CALENDAR"}
    ensures uses.lvUses == old(uses.lvUses)
  {
    uses.AddComponent("CALENDAR");
    DatesToCode(code, obj, c, "_highlighted_dates");
  }

  /** `do_calendar_update`, for one widget of the action. */
  method UpdateToCode(code: Code, obj: string, c: CalendarConf)
    modifies code
    ensures code.ops == old(code.ops) + CalendarOps(obj, c, "_highlighted_dates_update")
    ensures code.defines == old(code.defines) && code.warnings == old(code.warnings)
  {
    DatesToCode(code, obj, c, "_highlighted_dates_update");
  }

  /** Highlighted dates must be complete: a list entry the required schema
      accepts has all three fields, each in its range. */
  lemma HighlightedComplete(d: Config)
    requires DateSchema(d, true).Ok?
    ensures var r := DateSchema(d, true).value;
      && Complete(r)
      && 1970 <= r.year.value <= 2099 && 1 <= r.month.value <= 12 && 1 <= r.day.value <= 31
  {
  }

  /** An empty date mapping sets nothing; a partial one fills the missing
      fields with 2024/1/1. */
  lemma DateDefaults(obj: string, d: Date)
    ensures !NonEmpty(d) ==> DateOps("calendar_set_today_date", obj, Some(d)) == []
    ensures d == Date(None, Some(5), None) ==>
      DateOps("calendar_set_today_date", obj, Some(d)) == [Call("calendar_set_today_date", [Var(obj), Num(2024), Num(5), Num(1)])]
  {
  }

  /** The order is today, shown, highlighted; the array holds one element
      per highlighted date in list order and the count passed is the list
      length; the array is named after the widget and the suffix. */
  lemma CalendarLayout(obj: string, c: CalendarConf, suffix: string)
    requires c.today.Some? && NonEmpty(c.today.value) && c.showed.Some? && NonEmpty(c.showed.value)
    requires |c.highlighted| > 0
    ensures var ops := CalendarOps(obj, c, suffix);
      && |ops| == 4
      && ops[0].fn == "calendar_set_today_date" && ops[1].fn == "calendar_set_showed_date"
      && ops[2] == Raw(ArrayDecl(obj + suffix, Elements(c.highlighted)))
      && ops[3] == Call("calendar_set_highlighted_dates", [Var(obj), Lit(obj + suffix), Num(|c.highlighted|)])
  {
  }

  /** Creation and update differ only in the array's name. */
  lemma UpdateMirrorsCreate(obj: string, c: CalendarConf)
    ensures |CalendarOps(obj, c, "_highlighted_dates")| == |CalendarOps(obj, c, "_highlighted_dates_update")|
    ensures |c.highlighted| == 0 ==> CalendarOps(obj, c, "_highlighted_dates") == CalendarOps(obj, c, "_highlighted_dates_update")
  {
  }
}
