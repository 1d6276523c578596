/** The add and update special-date dialogs
    (src/components/profile/AddSpecialDateModal.tsx,
    src/components/profile/UpdateSpecialDateModal.tsx): their form fields,
    the "YYYY-MM-DD" text of the date input, and when they call back. */
module DateForms {
  import opened Wrappers
  import opened Text
  import opened Calendar
  import opened Couples

  /** The three form fields: name, the date input's text, the recurring box. */
  datatype Form = Form(name: string, value: string, recurring: bool)

  /** The fields on first render and after every close. */
  const EmptyForm := Form("", "", true)

  /** The date input's text for a local calendar date: year, then month
      (1-based) and day each padded to two digits, joined by '-'. */
  function FormatDateInput(d: Date): string
  {
    IntToString(d.year) + "-" + PadStart2(IntToString(d.month + 1)) + "-" + PadStart2(IntToString(d.day))
  }

  /** The arguments the save handlers hand to `Date.UTC`: the first three
      '-'-separated fields as numbers, the month made 0-based. `None` stands
      for a NaN field, which makes the resulting date invalid. */
  function ParseDateInput(s: string): (r: Option<Date>)
    ensures var parts := Split(s, '-');
      r.Some? <==> |parts| >= 3 && AllDigits(parts[0]) && AllDigits(parts[1]) && AllDigits(parts[2])
    ensures var parts := Split(s, '-');
      r.Some? ==> r.value == Date(ParseDigits(parts[0]), ParseDigits(parts[1]) - 1, ParseDigits(parts[2]))
  {
    var parts := Split(s, '-');
    if |parts| < 3 then None
    else
      match (NumberOf(parts[0]), NumberOf(parts[1]), NumberOf(parts[2]))
      case (Some(y), Some(m), Some(d)) => Some(Date(y, m - 1, d))
      case _ => None
  }

  lemma DigitsHaveNoDash(s: string)
    requires AllDigits(s)
    ensures '-' !in s
  {
  }

  /** Parsing the text formatted for a date of a non-negative year gives
      back that year, month index and day. */
  lemma FormatThenParse(d: Date)
    requires d.year >= 0 && 0 <= d.month < 12 && 1 <= d.day <= 31
    ensures ParseDateInput(FormatDateInput(d)) == Some(d)
  {
    var y := Decimal(d.year);
    var m := PadStart2(Decimal(d.month + 1));
    var dd := PadStart2(Decimal(d.day));
    DigitsHaveNoDash(y);
    DigitsHaveNoDash(m);
    DigitsHaveNoDash(dd);
    assert FormatDateInput(d) == y + ['-'] + m + ['-'] + dd;
    SplitThree(y, m, dd, '-');
  }

  /** The text for a negative year starts with the year's minus sign. */
  lemma LeadingDash(d: Date)
    requires d.year < 0
    ensures |FormatDateInput(d)| > 0 && FormatDateInput(d)[0] == '-'
  {
    var y := IntToString(d.year);
    var m := PadStart2(IntToString(d.month + 1));
    var dd := PadStart2(IntToString(d.day));
    assert y[0] == '-';
    var a := y + "-";
    assert a[0] == '-';
    var b := a + m;
    assert b[0] == '-';
    var c := b + "-";
    assert c[0] == '-';
    assert FormatDateInput(d) == c + dd;
  }

  /** A negative year's leading '-' opens an empty first field, so the year
      reads back as 0 and the round trip fails. */
  lemma NegativeYearLost(d: Date)
    requires d.year < 0
    ensures ParseDateInput(FormatDateInput(d)) != Some(d)
    ensures ParseDateInput(FormatDateInput(d)).Some? ==> ParseDateInput(FormatDateInput(d)).value.year == 0
  {
    LeadingDash(d);
    SplitLeadingSep(FormatDateInput(d), '-');
    assert NumberOf(Split(FormatDateInput(d), '-')[0]) == Some(0);
  }

  // ---------------------------------------------------------------------------
  // Update dialog
  // ---------------------------------------------------------------------------

  /** The effect on `[isOpen, specialDate]`: opening on a selected date fills
      the fields from it, closing clears them, anything else keeps them.
      `local` gives the local calendar date of a timestamp. */
  function SyncUpdateForm(isOpen: bool, selected: Option<SpecialDate>, form: Form, local: int -> Date): (f: Form)
    ensures !isOpen ==> f == EmptyForm
    ensures isOpen && selected.Some? ==>
      f.name == selected.value.name
      && f.value == FormatDateInput(local(selected.value.date))
      && f.recurring == selected.value.recurring.GetOr(true)
    ensures isOpen && selected.None? ==> f == form
  {
    if isOpen && selected.Some? then
      var sd := selected.value;
      Form(sd.name, FormatDateInput(local(sd.date)), sd.recurring.GetOr(true))
    else if !isOpen then EmptyForm
    else form
  }

  /** The update dialog's save callback: the selected entry's id, the name,
      the parsed date and the flag. */
  datatype UpdateCall = UpdateCall(id: string, name: string, date: Option<Date>, recurring: bool)

  function SaveUpdate(form: Form, selected: Option<SpecialDate>): (call: Option<UpdateCall>)
    ensures call.Some? <==> form.name != "" && form.value != "" && selected.Some?
    ensures call.Some? ==> call.value.id == selected.value.id && call.value.name == form.name
                           && call.value.recurring == form.recurring
                           && call.value.date == ParseDateInput(form.value)
  {
    if form.name != "" && form.value != "" && selected.Some? then
      Some(UpdateCall(selected.value.id, form.name, ParseDateInput(form.value), form.recurring))
    else None
  }

  /** The delete callback receives the selected id; nothing happens without one. */
  function DeleteSelected(selected: Option<SpecialDate>): (id: Option<string>)
    ensures id.Some? <==> selected.Some?
    ensures id.Some? ==> id.value == selected.value.id
  {
    if selected.Some? then Some(selected.value.id) else None
  }

  /** Opening the dialog on a named entry and saving at once hands back the
      entry's own id, name, local date and flag (absent meaning recurring). */
  lemma OpenThenSaveKeepsEntry(sd: SpecialDate, form: Form, local: int -> Date)
    requires sd.name != ""
    requires local(sd.date).year >= 0 && 0 <= local(sd.date).month < 12 && 1 <= local(sd.date).day <= 31
    ensures SaveUpdate(SyncUpdateForm(true, Some(sd), form, local), Some(sd))
         == Some(UpdateCall(sd.id, sd.name, Some(local(sd.date)), sd.recurring.GetOr(true)))
  {
    FormatThenParse(local(sd.date));
    var text := FormatDateInput(local(sd.date));
    assert |IntToString(local(sd.date).year)| >= 1;
    assert text != "";
  }

  // ---------------------------------------------------------------------------
  // Add dialog
  // ---------------------------------------------------------------------------

  /** The effect on `[isOpen]`: closing clears the fields. */
  function SyncAddForm(isOpen: bool, form: Form): (f: Form)
    ensures !isOpen ==> f == EmptyForm && f.recurring
    ensures isOpen ==> f == form
  {
    if !isOpen then EmptyForm else form
  }

  datatype AddCall = AddCall(name: string, date: Option<Date>, recurring: bool)

  function SaveAdd(form: Form): (call: Option<AddCall>)
    ensures call.Some? <==> form.name != "" && form.value != ""
    ensures call.Some? ==> call.value.name == form.name && call.value.recurring == form.recurring
                           && call.value.date == ParseDateInput(form.value)
  {
    if form.name != "" && form.value != "" then Some(AddCall(form.name, ParseDateInput(form.value), form.recurring))
    else None
  }

  /** A date typed as "YYYY-MM-DD" reaches the save callback as its year,
      0-based month and day. */
  lemma AddSavesTypedDate(name: string, d: Date, recurring: bool)
    requires name != ""
    requires d.year >= 0 && 0 <= d.month < 12 && 1 <= d.day <= 31
    ensures SaveAdd(Form(name, FormatDateInput(d), recurring)) == Some(AddCall(name, Some(d), recurring))
  {
    FormatThenParse(d);
    assert |IntToString(d.year)| >= 1;
  }
}
