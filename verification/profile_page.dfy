/** The special-date and field handlers of the profile page
    (src/pages/ProfilePage.tsx): each calls the couple service and, on
    success, patches the couple held in the auth context. */
module ProfilePage {
  import opened Wrappers
  import opened Seqs
  import opened Couples

  datatype FieldKey = RelationshipStatus | MeetStory

  /** The page state the handlers touch. The saving/updating spinners are
      set and cleared within one handler and are not kept. */
  datatype Page = Page(
    couple: Option<Couple>,
    addOpen: bool,
    addError: string,
    updateOpen: bool,
    selected: Option<SpecialDate>,
    updateError: string,
    fieldOpen: bool,
    fieldKey: Option<FieldKey>,
    fieldValue: string,
    fieldError: string)

  /** A handler's result: the new page state and the store after the service call. */
  datatype Step = Step(page: Page, store: Store)

  const NoCoupleForAdd := "Couple not found. Cannot add special date."
  const NoCoupleForUpdate := "Couple not found. Cannot update special date."
  const NoCoupleForDelete := "Couple not found. Cannot delete special date."
  const NoCoupleOrField := "Couple not found or field not selected."

  /** `couple?.coupleId` is truthy. */
  predicate HasCoupleId(p: Page)
  {
    p.couple.Some? && p.couple.value.coupleId != ""
  }

  /** `handleSaveSpecialDate`; `date` is the chosen date's timestamp. */
  function SaveSpecialDate(p: Page, st: Store, name: string, date: int, recurring: bool,
                           newId: string, now: int): (r: Step)
    ensures !HasCoupleId(p) ==> r == Step(p.(addError := NoCoupleForAdd), st)
    ensures HasCoupleId(p) ==>
      var o := AddSpecialDate(st, p.couple.value.coupleId, name, date, recurring, newId, now);
      && r.store == o.store
      && (o.result.Ok? ==>
            && r.page.couple == Some(p.couple.value.(specialDates := Some(DatesOf(p.couple.value) + [o.result.value])))
            && !r.page.addOpen && r.page.addError == "")
      && (o.result.Err? ==> r.page == p.(addError := o.result.error))
  {
    if !HasCoupleId(p) then Step(p.(addError := NoCoupleForAdd), st)
    else
      var c := p.couple.value;
      var o := AddSpecialDate(st, c.coupleId, name, date, recurring, newId, now);
      match o.result
      case Ok(entry) =>
        Step(p.(couple := Some(c.(specialDates := Some(DatesOf(c) + [entry]))), addOpen := false, addError := ""), o.store)
      case Err(e) => Step(p.(addError := e), o.store)
  }

  /** `handleDateClick`: selects the entry and opens the update dialog. */
  function ClickDate(p: Page, d: SpecialDate): (r: Page)
    ensures r.selected == Some(d) && r.updateOpen
    ensures r.(selected := p.selected, updateOpen := p.updateOpen) == p
  {
    p.(selected := Some(d), updateOpen := true)
  }

  /** The local list after an update: every entry carrying the id replaced. */
  function ReplaceAllById(dates: seq<SpecialDate>, updated: SpecialDate): (r: seq<SpecialDate>)
    ensures |r| == |dates|
    ensures forall i :: 0 <= i < |dates| ==>
      (dates[i].id == updated.id ==> r[i] == updated) && (dates[i].id != updated.id ==> r[i] == dates[i])
  {
    Map(dates, (d: SpecialDate) => if d.id == updated.id then updated else d)
  }

  /** `handleUpdateSpecialDate`. */
  function UpdateSpecialDate(p: Page, st: Store, id: string, name: string, date: int, recurring: bool,
                             now: int): (r: Step)
    ensures !HasCoupleId(p) ==> r == Step(p.(updateError := NoCoupleForUpdate), st)
    ensures HasCoupleId(p) ==>
      var updated := SpecialDate(id, name, date, Some(recurring));
      var o := Couples.UpdateSpecialDate(st, p.couple.value.coupleId, updated, now);
      && r.store == o.store
      && (o.result.Ok? ==>
            && r.page.couple == Some(p.couple.value.(specialDates := Some(ReplaceAllById(DatesOf(p.couple.value), updated))))
            && !r.page.updateOpen && r.page.updateError == "")
      && (o.result.Err? ==> r.page == p.(updateError := o.result.error))
  {
    if !HasCoupleId(p) then Step(p.(updateError := NoCoupleForUpdate), st)
    else
      var c := p.couple.value;
      var updated := SpecialDate(id, name, date, Some(recurring));
      var o := Couples.UpdateSpecialDate(st, c.coupleId, updated, now);
      match o.result
      case Ok(_) =>
        Step(p.(couple := Some(c.(specialDates := Some(ReplaceAllById(DatesOf(c), updated)))),
                updateOpen := false, updateError := ""), o.store)
      case Err(e) => Step(p.(updateError := e), o.store)
  }

  /** `handleDeleteSpecialDate`. */
  function DeleteSpecialDate(p: Page, st: Store, id: string, now: int): (r: Step)
    ensures !HasCoupleId(p) ==> r == Step(p.(updateError := NoCoupleForDelete), st)
    ensures HasCoupleId(p) ==>
      var o := Couples.DeleteSpecialDate(st, p.couple.value.coupleId, id, now);
      && r.store == o.store
      && (o.result.Ok? ==>
            && r.page.couple == Some(p.couple.value.(specialDates := Some(Filter(DatesOf(p.couple.value), (d: SpecialDate) => d.id != id))))
            && !r.page.updateOpen && r.page.updateError == "")
      && (o.result.Err? ==> r.page == p.(updateError := o.result.error))
  {
    if !HasCoupleId(p) then Step(p.(updateError := NoCoupleForDelete), st)
    else
      var c := p.couple.value;
      var o := Couples.DeleteSpecialDate(st, c.coupleId, id, now);
      match o.result
      case Ok(_) =>
        Step(p.(couple := Some(c.(specialDates := Some(Filter(DatesOf(c), (d: SpecialDate) => d.id != id)))),
                updateOpen := false, updateError := ""), o.store)
      case Err(e) => Step(p.(updateError := e), o.store)
  }

  /** `handleEditField`: remembers which field and its current text, opens the dialog. */
  function EditField(p: Page, key: FieldKey, current: string): (r: Page)
    ensures r.fieldKey == Some(key) && r.fieldValue == current && r.fieldOpen && r.fieldError == ""
    ensures r.couple == p.couple && r.selected == p.selected
  {
    p.(fieldKey := Some(key), fieldValue := current, fieldOpen := true, fieldError := "")
  }

  /** `{ [key]: value }` as the service's details. */
  function FieldDetails(key: FieldKey, value: string): Details
  {
    match key
    case RelationshipStatus => Details(Some(value), None, None)
    case MeetStory => Details(None, None, Some(value))
  }

  /** `{ ...couple, [key]: value }`. */
  function MergeField(c: Couple, key: FieldKey, value: string): (r: Couple)
    ensures key == RelationshipStatus ==> r == c.(relationshipStatus := Some(value))
    ensures key == MeetStory ==> r == c.(meetStory := Some(value))
  {
    match key
    case RelationshipStatus => c.(relationshipStatus := Some(value))
    case MeetStory => c.(meetStory := Some(value))
  }

  /** A saved non-empty text is mirrored exactly: when the page showed the
      stored couple, after the save it shows the stored couple again, apart
      from the update time, which the page does not track. */
  lemma SaveFieldMirrorsStore(p: Page, st: Store, value: string, now: int)
    requires HasCoupleId(p) && p.fieldKey.Some? && value != ""
    requires p.couple.value.coupleId in st.couples && st.couples[p.couple.value.coupleId] == p.couple.value
    ensures var r := SaveField(p, st, value, now);
      var id := p.couple.value.coupleId;
      && id in r.store.couples
      && r.page.couple.Some?
      && r.page.couple.value == r.store.couples[id].(updatedAt := p.couple.value.updatedAt)
  {
    var c := p.couple.value;
    var key := p.fieldKey.value;
    var a := ApplyDetails(c, FieldDetails(key, value), now);
    assert a.(updatedAt := c.updatedAt) == MergeField(c, key, value);
  }

  /** `handleSaveField`. */
  function SaveField(p: Page, st: Store, value: string, now: int): (r: Step)
    ensures !HasCoupleId(p) || p.fieldKey.None? ==> r == Step(p.(fieldError := NoCoupleOrField), st)
    ensures HasCoupleId(p) && p.fieldKey.Some? ==>
      var o := UpdateCoupleDetails(st, p.couple.value.coupleId, FieldDetails(p.fieldKey.value, value), now);
      && r.store == o.store
      && (o.result.Ok? ==> r.page == p.(couple := Some(MergeField(p.couple.value, p.fieldKey.value, value)),
                                         fieldOpen := false, fieldError := ""))
      && (o.result.Err? ==> r.page == p.(fieldError := o.result.error))
  {
    if !HasCoupleId(p) || p.fieldKey.None? then Step(p.(fieldError := NoCoupleOrField), st)
    else
      var c := p.couple.value;
      var key := p.fieldKey.value;
      var o := UpdateCoupleDetails(st, c.coupleId, FieldDetails(key, value), now);
      match o.result
      case Ok(_) => Step(p.(couple := Some(MergeField(c, key, value)), fieldOpen := false, fieldError := ""), o.store)
      case Err(e) => Step(p.(fieldError := e), o.store)
  }

  // ---------------------------------------------------------------------------
  // The local couple against the stored couple
  // ---------------------------------------------------------------------------

  /** The page's couple and the stored couple list the same special dates. */
  predicate DatesInSync(p: Page, st: Store)
  {
    p.couple.Some? && p.couple.value.coupleId in st.couples
    && DatesOf(p.couple.value) == DatesOf(st.couples[p.couple.value.coupleId])
  }

  /** No two entries share an id. */
  predicate UniqueIds(dates: seq<SpecialDate>)
  {
    forall i, j :: 0 <= i < j < |dates| ==> dates[i].id != dates[j].id
  }

  /** A successful add with a fresh id keeps the page's list equal to the stored one. */
  lemma AddKeepsSync(p: Page, st: Store, name: string, date: int, recurring: bool, newId: string, now: int)
    requires HasCoupleId(p) && DatesInSync(p, st)
    requires !HasId(DatesOf(p.couple.value), newId)
    requires AddSpecialDate(st, p.couple.value.coupleId, name, date, recurring, newId, now).result.Ok?
    ensures DatesInSync(SaveSpecialDate(p, st, name, date, recurring, newId, now).page,
                        SaveSpecialDate(p, st, name, date, recurring, newId, now).store)
  {
  }

  /** A successful delete keeps the page's list equal to the stored one. */
  lemma DeleteKeepsSync(p: Page, st: Store, id: string, now: int)
    requires HasCoupleId(p) && DatesInSync(p, st)
    requires Couples.DeleteSpecialDate(st, p.couple.value.coupleId, id, now).result.Ok?
    ensures DatesInSync(DeleteSpecialDate(p, st, id, now).page, DeleteSpecialDate(p, st, id, now).store)
  {
  }

  /** The page replaces every entry with the id and the service only the
      first; with unique ids they agree, so a successful update of a stored
      entry keeps the lists equal. */
  lemma UpdateKeepsSync(p: Page, st: Store, id: string, name: string, date: int, recurring: bool, now: int)
    requires HasCoupleId(p) && DatesInSync(p, st)
    requires UniqueIds(DatesOf(p.couple.value))
    requires id != AnniversaryId
    requires Couples.UpdateSpecialDate(st, p.couple.value.coupleId, SpecialDate(id, name, date, Some(recurring)), now).result.Ok?
    ensures DatesInSync(UpdateSpecialDate(p, st, id, name, date, recurring, now).page,
                        UpdateSpecialDate(p, st, id, name, date, recurring, now).store)
  {
    var c := p.couple.value;
    var updated := SpecialDate(id, name, date, Some(recurring));
    UpdateSpecialDateEffect(st, c.coupleId, updated, now);
    var before := DatesOf(c);
    var k := FindIndex(before, (d: SpecialDate) => d.id == updated.id);
    var r := UpdateSpecialDate(p, st, id, name, date, recurring, now);
    assert DatesOf(r.page.couple.value) == ReplaceAllById(before, updated);
    assert DatesOf(r.store.couples[c.coupleId]) == before[k := updated];
    assert ReplaceAllById(before, updated) == before[k := updated];
  }

  /** Editing the anniversary entry writes the stored anniversary but leaves
      the page's anniversary as it was, so the list keeps showing the old date
      until the couple is reloaded. */
  lemma AnniversaryEditNotMirrored(p: Page, st: Store, name: string, date: int, recurring: bool, now: int)
    requires HasCoupleId(p) && p.couple.value.coupleId in st.couples
    ensures var r := UpdateSpecialDate(p, st, AnniversaryId, name, date, recurring, now);
      && r.store.couples[p.couple.value.coupleId].anniversary == Some(date)
      && r.page.couple.value.anniversary == p.couple.value.anniversary
  {
    UpdateSpecialDateEffect(st, p.couple.value.coupleId, SpecialDate(AnniversaryId, name, date, Some(recurring)), now);
  }

  /** Saving an empty text sets the page's field to "" while the service
      skips empty texts, so the stored field keeps its old value. */
  lemma EmptyFieldNotStored(p: Page, st: Store, now: int)
    requires HasCoupleId(p) && p.fieldKey.Some? && p.couple.value.coupleId in st.couples
    ensures var r := SaveField(p, st, "", now);
      var id := p.couple.value.coupleId;
      && id in r.store.couples
      && (p.fieldKey.value == RelationshipStatus ==>
            r.page.couple.value.relationshipStatus == Some("")
            && r.store.couples[id].relationshipStatus == st.couples[id].relationshipStatus)
      && (p.fieldKey.value == MeetStory ==>
            r.page.couple.value.meetStory == Some("")
            && r.store.couples[id].meetStory == st.couples[id].meetStory)
  {
  }
}
