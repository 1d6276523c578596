/** The goal forms: editing a goal
    (src/components/goals/EditGoalModal.tsx) and adding one
    (src/components/goals/AddGoalModal.tsx). Checklist rows are edited as
    texts; saving keeps the non-blank rows in order. */
module GoalForms {
  import opened Wrappers
  import opened Seqs
  import opened Text
  import opened Goals

  const RequiredFields := "Please fill out all required fields: Title and Due Date."
  const SaveFailed := "There was an error saving the quest. Please try again."

  /** A checklist row of the edit form: its text and, for a row the form
      opened with, the index of the stored item it shows. */
  datatype Row = Row(text: string, origin: Option<nat>)

  function Texts(rows: seq<Row>): (r: seq<string>)
    ensures |r| == |rows| && forall i :: 0 <= i < |rows| ==> r[i] == rows[i].text
  {
    Map(rows, (row: Row) => row.text)
  }

  /** The rows a form opens with: one per stored item, or a single empty
      row when the goal has no checklist. */
  function InitialRows(checklist: Option<seq<ChecklistItem>>): (r: seq<Row>)
    ensures checklist.None? ==> r == [Row("", None)]
    ensures checklist.Some? ==> |r| == |checklist.value|
    ensures checklist.Some? ==> forall i :: 0 <= i < |r| ==> r[i] == Row(checklist.value[i].text, Some(i))
  {
    match checklist
    case None => [Row("", None)]
    case Some(items) => seq(|items|, i requires 0 <= i < |items| => Row(items[i].text, Some(i)))
  }

  /** Typing into row `index` changes that row's text only. */
  function ChangeRow(rows: seq<Row>, index: nat, value: string): (r: seq<Row>)
    requires index < |rows|
    ensures |r| == |rows| && r[index] == rows[index].(text := value)
    ensures forall i :: 0 <= i < |rows| && i != index ==> r[i] == rows[i]
  {
    rows[index := rows[index].(text := value)]
  }

  function AddRow(rows: seq<Row>): (r: seq<Row>)
    ensures |r| == |rows| + 1 && r[..|rows|] == rows && r[|rows|] == Row("", None)
  {
    rows + [Row("", None)]
  }

  /** `filter((_, i) => i !== index)`. */
  function RemoveRow(rows: seq<Row>, index: int): (r: seq<Row>)
    ensures 0 <= index < |rows| ==> r == rows[..index] + rows[index + 1..]
    ensures !(0 <= index < |rows|) ==> r == rows
  {
    var r := RemoveAt(rows, index);
    assert 0 <= index < |rows| ==> r == rows[..index] + rows[index + 1..];
    r
  }

  predicate Kept(row: Row)
  {
    !IsBlank(row.text)
  }

  function KeptRows(rows: seq<Row>): (r: seq<Row>)
    ensures |r| <= |rows|
    ensures forall i :: 0 <= i < |r| ==> Kept(r[i]) && r[i] in rows
    ensures forall i :: 0 <= i < |rows| ==> (rows[i] in r <==> Kept(rows[i]))
  {
    Filter(rows, Kept)
  }

  /** The stored item an index denotes, if any (`goal.checklist?.[index]`). */
  function StoredAt(checklist: Option<seq<ChecklistItem>>, index: Option<nat>): (e: Option<ChecklistItem>)
    ensures e.Some? <==> checklist.Some? && index.Some? && index.value < |checklist.value|
    ensures e.Some? ==> e.value == checklist.value[index.value]
  {
    if checklist.Some? && index.Some? && index.value < |checklist.value| then Some(checklist.value[index.value]) else None
  }

  /** A saved item: the stored item's id (a fresh one when it has none) and
      completion (false without a stored item), with the row's text. */
  function SavedItem(text: string, existing: Option<ChecklistItem>, freshId: string): (item: ChecklistItem)
    ensures item.text == text
    ensures item.completed <==> existing.Some? && existing.value.completed
    ensures item.id == (if existing.Some? && existing.value.id != "" then existing.value.id else freshId)
  {
    ChecklistItem(if existing.Some? && existing.value.id != "" then existing.value.id else freshId,
                  text,
                  existing.Some? && existing.value.completed)
  }

  /** The checklist as the edit form saves it: the k-th kept text takes the
      id and completion of the k-th STORED item, counted after blank rows
      are dropped. */
  function FinalChecklistAsWritten(texts: seq<string>, checklist: Option<seq<ChecklistItem>>, freshIds: seq<string>): (r: seq<ChecklistItem>)
    requires |freshIds| >= |texts|
    ensures var kept := Filter(texts, (t: string) => !IsBlank(t));
      && |r| == |kept|
      && forall k :: 0 <= k < |r| ==> r[k] == SavedItem(kept[k], StoredAt(checklist, Some(k)), freshIds[k])
  {
    var kept := Filter(texts, (t: string) => !IsBlank(t));
    seq(|kept|, k requires 0 <= k < |kept| => SavedItem(kept[k], StoredAt(checklist, Some(k)), freshIds[k]))
  }

  /** The checklist as evidently intended: each kept row takes the id and
      completion of the stored item it was opened from. */
  function FinalChecklist(rows: seq<Row>, checklist: Option<seq<ChecklistItem>>, freshIds: seq<string>): (r: seq<ChecklistItem>)
    requires |freshIds| >= |rows|
    ensures var kept := KeptRows(rows);
      && |r| == |kept|
      && forall k :: 0 <= k < |r| ==> r[k] == SavedItem(kept[k].text, StoredAt(checklist, kept[k].origin), freshIds[k])
  {
    var kept := KeptRows(rows);
    seq(|kept|, k requires 0 <= k < |kept| => SavedItem(kept[k].text, StoredAt(checklist, kept[k].origin), freshIds[k]))
  }

  /** A stored checklist every item of which has a text and an id. */
  predicate WellFormed(items: seq<ChecklistItem>)
  {
    forall i :: 0 <= i < |items| ==> !IsBlank(items[i].text) && items[i].id != ""
  }

  /** Opening and saving without edits gives the stored checklist back. */
  lemma UneditedSaveKeepsChecklist(items: seq<ChecklistItem>, freshIds: seq<string>)
    requires WellFormed(items) && |freshIds| >= |items|
    ensures FinalChecklist(InitialRows(Some(items)), Some(items), freshIds) == items
  {
    var rows := InitialRows(Some(items));
    FilterAll(rows, Kept);
  }

  /** The save as written also gives the stored checklist back when no row
      was edited, removed or blanked. */
  lemma UneditedSaveAsWrittenKeepsChecklist(items: seq<ChecklistItem>, freshIds: seq<string>)
    requires WellFormed(items) && |freshIds| >= |items|
    ensures FinalChecklistAsWritten(Texts(InitialRows(Some(items))), Some(items), freshIds) == items
  {
    var texts := Texts(InitialRows(Some(items)));
    FilterAll(texts, (t: string) => !IsBlank(t));
  }

  /** Removing one row keeps every other item as it was: its id, text and
      completion. */
  lemma RemoveKeepsOtherItems(items: seq<ChecklistItem>, j: nat, freshIds: seq<string>)
    requires WellFormed(items) && j < |items| && |freshIds| >= |items|
    ensures FinalChecklist(RemoveRow(InitialRows(Some(items)), j), Some(items), freshIds) == items[..j] + items[j + 1..]
  {
    var rows := RemoveRow(InitialRows(Some(items)), j);
    var expected := items[..j] + items[j + 1..];
    RowsAfterRemoval(items, j);
    FilterAll(rows, Kept);
    var r := FinalChecklist(rows, Some(items), freshIds);
    forall k | 0 <= k < |r|
      ensures r[k] == expected[k]
    {
      ExpectedAt(items, j, k);
    }
  }

  /** After removing row `j`, row `i` is the stored item it was opened from:
      item `i` before `j`, item `i + 1` from `j` on. */
  lemma RowsAfterRemoval(items: seq<ChecklistItem>, j: nat)
    requires WellFormed(items) && j < |items|
    ensures var rows := RemoveRow(InitialRows(Some(items)), j);
      && |rows| == |items| - 1
      && forall i :: 0 <= i < |rows| ==>
           rows[i] == Row(items[if i < j then i else i + 1].text, Some(if i < j then i else i + 1)) && Kept(rows[i])
  {
    var all := InitialRows(Some(items));
    var rows := RemoveRow(all, j);
    forall i | 0 <= i < |rows|
      ensures rows[i] == Row(items[if i < j then i else i + 1].text, Some(if i < j then i else i + 1)) && Kept(rows[i])
    {
      if i < j {
        assert rows[i] == all[i];
      } else {
        assert rows[i] == all[i + 1];
      }
    }
  }

  /** Position `k` of the checklist without item `j`. */
  lemma ExpectedAt(items: seq<ChecklistItem>, j: nat, k: nat)
    requires j < |items| && k < |items| - 1
    ensures (items[..j] + items[j + 1..])[k] == items[if k < j then k else k + 1]
  {
  }

  const BuyRing := ChecklistItem("a", "Buy ring", true)
  const BookTable := ChecklistItem("b", "Book table", false)

  /** Removing the first of two rows, as written, moves the removed
      item's id and completion onto the remaining text: "Book table"
      is saved as done under the id of "Buy ring". The corrected save
      keeps "Book table" as it was. */
  lemma RemovalShiftsCompletion(freshIds: seq<string>)
    requires |freshIds| >= 2
    ensures var rows := RemoveRow(InitialRows(Some([BuyRing, BookTable])), 0);
      && FinalChecklistAsWritten(Texts(rows), Some([BuyRing, BookTable]), freshIds) == [ChecklistItem("a", "Book table", true)]
      && FinalChecklist(rows, Some([BuyRing, BookTable]), freshIds) == [BookTable]
  {
    var items := [BuyRing, BookTable];
    var rows := RemoveRow(InitialRows(Some(items)), 0);
    assert rows == [Row("Book table", Some(1))];
    assert !IsBlank("Book table") by { assert !IsWhitespace("Book table"[0]); }
    FilterAll(rows, Kept);
    FilterAll(Texts(rows), (t: string) => !IsBlank(t));
  }

  // ---------------------------------------------------------------------------
  // The edit form
  // ---------------------------------------------------------------------------

  /** The edit form; `dueDate` is the date input's text. */
  datatype EditForm = EditForm(title: string, details: string, dueDate: string, goalType: GoalType,
                               rows: seq<Row>, error: string, open: bool)

  /** The form for `goal`; `dueDateText` is its due date as the date input
      shows it. */
  function OpenEdit(goal: Goal, dueDateText: string): (f: EditForm)
    ensures f.title == goal.title && f.details == goal.details.GetOr("") && f.goalType == goal.goalType
    ensures f.rows == InitialRows(goal.checklist) && f.error == "" && f.open
  {
    EditForm(goal.title, goal.details.GetOr(""), dueDateText, goal.goalType, InitialRows(goal.checklist), "", true)
  }

  datatype EditStep = EditStep(form: EditForm, store: GoalStore)

  /** The goal after `updateGoal(id, updatedData)`. */
  function Edited(stored: Goal, f: EditForm, dueAt: int, checklist: seq<ChecklistItem>, now: int): Goal
  {
    stored.(title := f.title, details := Some(f.details), dueDate := dueAt, goalType := f.goalType,
            checklist := Some(checklist), updatedAt := now)
  }

  /** `handleSubmit`: a missing title or due date only sets the error; a
      goal without an id closes the form without writing; otherwise the
      goal is updated, and the form closes on success and reports the
      error on failure. `dueAt` is the typed date as a timestamp. The
      checklist is built as written: the k-th non-blank text takes the
      stored item at position k. */
  function SubmitEdit(f: EditForm, goal: Goal, store: GoalStore, freshIds: seq<string>, dueAt: int, now: int): (r: EditStep)
    requires |freshIds| >= |f.rows|
    ensures f.title == "" || f.dueDate == "" ==> r == EditStep(f.(error := RequiredFields), store)
    ensures f.title != "" && f.dueDate != "" && !Present(goal.id) ==> r == EditStep(f.(error := "", open := false), store)
    ensures f.title != "" && f.dueDate != "" && Present(goal.id) && goal.id.value !in store ==>
      r == EditStep(f.(error := SaveFailed), store)
    ensures f.title != "" && f.dueDate != "" && Present(goal.id) && goal.id.value in store ==>
      && !r.form.open && r.form.error == ""
      && r.store == store[goal.id.value := Edited(store[goal.id.value], f, dueAt,
                                                   FinalChecklistAsWritten(Texts(f.rows), goal.checklist, freshIds), now)]
  {
    if f.title == "" || f.dueDate == "" then EditStep(f.(error := RequiredFields), store)
    else if !Present(goal.id) then EditStep(f.(error := "", open := false), store)
    else
      var id := goal.id.value;
      if id !in store then EditStep(f.(error := SaveFailed), store)
      else
        var saved := Edited(store[id], f, dueAt, FinalChecklistAsWritten(Texts(f.rows), goal.checklist, freshIds), now);
        EditStep(f.(error := "", open := false), store[id := saved])
  }

  /** `handleSubmit` with the corrected checklist: each kept row takes the
      stored item it was opened from. Every other outcome is as written. */
  function SubmitEditCorrected(f: EditForm, goal: Goal, store: GoalStore, freshIds: seq<string>, dueAt: int, now: int): (r: EditStep)
    requires |freshIds| >= |f.rows|
    ensures f.title == "" || f.dueDate == "" ==> r == EditStep(f.(error := RequiredFields), store)
    ensures f.title != "" && f.dueDate != "" && !Present(goal.id) ==> r == EditStep(f.(error := "", open := false), store)
    ensures f.title != "" && f.dueDate != "" && Present(goal.id) && goal.id.value !in store ==>
      r == EditStep(f.(error := SaveFailed), store)
    ensures f.title != "" && f.dueDate != "" && Present(goal.id) && goal.id.value in store ==>
      && !r.form.open && r.form.error == ""
      && r.store == store[goal.id.value := Edited(store[goal.id.value], f, dueAt, FinalChecklist(f.rows, goal.checklist, freshIds), now)]
  {
    if f.title == "" || f.dueDate == "" then EditStep(f.(error := RequiredFields), store)
    else if !Present(goal.id) then EditStep(f.(error := "", open := false), store)
    else
      var id := goal.id.value;
      if id !in store then EditStep(f.(error := SaveFailed), store)
      else
        var saved := Edited(store[id], f, dueAt, FinalChecklist(f.rows, goal.checklist, freshIds), now);
        EditStep(f.(error := "", open := false), store[id := saved])
  }

  // ---------------------------------------------------------------------------
  // The add form
  // ---------------------------------------------------------------------------

  datatype AddForm = AddForm(title: string, details: string, dueDate: string, goalType: GoalType, rows: seq<string>)

  const InitialAddForm := AddForm("", "", "", Us, [""])

  function ChangeText(rows: seq<string>, index: nat, value: string): (r: seq<string>)
    requires index < |rows|
    ensures |r| == |rows| && r[index] == value
    ensures forall i :: 0 <= i < |rows| && i != index ==> r[i] == rows[i]
  {
    rows[index := value]
  }

  function AddText(rows: seq<string>): (r: seq<string>)
    ensures |r| == |rows| + 1 && r[..|rows|] == rows && r[|rows|] == ""
  {
    rows + [""]
  }

  // Removing a text is `Seqs.RemoveAt`, as for the edit dialog's rows.

  /** The new goal's checklist: the non-blank texts in order, none completed. */
  function NewChecklist(rows: seq<string>, freshIds: seq<string>): (r: seq<ChecklistItem>)
    requires |freshIds| >= |rows|
    ensures var kept := Filter(rows, (t: string) => !IsBlank(t));
      && |r| == |kept|
      && forall k :: 0 <= k < |r| ==> r[k] == ChecklistItem(freshIds[k], kept[k], false)
  {
    var kept := Filter(rows, (t: string) => !IsBlank(t));
    seq(|kept|, k requires 0 <= k < |kept| => ChecklistItem(freshIds[k], kept[k], false))
  }

  datatype AddStep = AddStep(store: GoalStore, closed: bool)

  /** `handleSubmit` of the add form: without a title, due date, user or
      couple nothing is created; otherwise one goal is created for the
      couple, by the user, and the form closes. */
  function SubmitAdd(f: AddForm, user: Option<string>, coupleId: Option<string>, store: GoalStore,
                     newId: string, freshIds: seq<string>, dueAt: int, now: int): (r: AddStep)
    requires newId !in store && |freshIds| >= |f.rows|
    ensures f.title == "" || f.dueDate == "" || user.None? || !Present(coupleId) ==> r == AddStep(store, false)
    ensures f.title != "" && f.dueDate != "" && user.Some? && Present(coupleId) ==>
      && r.closed
      && r.store.Keys == store.Keys + {newId}
      && (forall id :: id in store ==> r.store[id] == store[id])
      && var g := r.store[newId];
         && g.coupleId == coupleId.value && g.createdBy == user.value
         && g.title == f.title && g.goalType == f.goalType && g.dueDate == dueAt
         && g.details == Some(f.details)
         && g.checklist == Some(NewChecklist(f.rows, freshIds))
         && g.isArchived.None? && g.done.None?
  {
    if f.title == "" || f.dueDate == "" || user.None? || !Present(coupleId) then AddStep(store, false)
    else
      var g := Goal(None, coupleId.value, user.value, f.title, f.goalType, dueAt, Some(f.details), None,
                    Some(NewChecklist(f.rows, freshIds)), None, None, now, now);
      AddStep(store[newId := g], true)
  }

  /** A new goal has no progress: nothing on its checklist is completed. */
  lemma NewGoalStartsAtZero(rows: seq<string>, freshIds: seq<string>)
    requires |freshIds| >= |rows|
    ensures Progress(NewChecklist(rows, freshIds)) == 0.0
  {
    var r := NewChecklist(rows, freshIds);
    assert forall i :: 0 <= i < |r| ==> !r[i].completed;
  }
}
