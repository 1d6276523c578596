# Fungi's Duck Pen — a Dafny model of its client rules

Fungi's Duck Pen is a web app for couples. Two partners link their accounts
through an invite code. They then keep a shared profile with special dates,
set goals with checklists and nudge each other about them, and receive
notifications. They can also click a quacking duck, chat, and consult
"Dr. Kwuk".

All of the app's logic lives in a React/TypeScript client over a Firestore
store. This project models the rules inside that client as pure Dafny
functions over immutable datatypes. A Firestore collection becomes a `map`
from document id to document, and a service call becomes a function from the
store before the call to the store after it together with the value returned
or the error thrown (`Result`). Random draws, fresh document ids and clock
readings are parameters.

Modules, one per part of the program:

- `Wrappers`, `Seqs`, `Text`, `Calendar`, `Firestore`
  - `Option`/`Result`.
  - Order-preserving filters, counting, index search and sorting by key.
  - What the source takes from JavaScript's `String` methods (`trim`, `toUpperCase`, `split`, `Number`, `padStart`).
  - Calendar arithmetic that the source gets from `Date`.
  - The shared "No document to update" failure.
- `Couples`: invite codes, couple creation, joining by code, couple details and special dates (the couple service).
- `SpecialDatesView`: the special-dates list on the profile page: grouping, ordering, relative labels.
- `DateForms`: the add and update special-date dialogs and their "YYYY-MM-DD" text.
- `ProfilePage`: the profile page's handlers that keep the local couple in step with the store.
- `UserInfo`: the profile questionnaire's date assembly, validation and select options.
- `Linking`: the couple-linking page.
- `Notifications`: the notification service, the notifications hook, the type-to-route table and the notification item.
- `Goals`: the goal service, the goals hook, the goals page filter, the checklist component, progress and its clamp.
- `GoalForms`: the add and edit goal dialogs.
- `Nudges`: the nudge dialog and the nudge-response dialog.
- `Quacks`: the quack-count service, the stats panel, the duck clicker and the streak toggle.
- `Chat`: the chat service and the chat input.
- `Quackzulting`: the consultation sessions service.
- `Routing`: the route guard and the app's top-level gate.
- `SecurityRules`: the Firestore security rules as a decision over request, path and stored document.

## Model

| member | source | states |
|---|---|---|
| Couples.InviteCodeOf | src/firebase/coupleService.ts:6-13 | the code has one character per draw, every character an upper-case letter or a digit |
| Couples.InviteCodeDecodes | src/firebase/coupleService.ts:6-13 | the draws are read back from the code by alphabet position, so different draws give different codes |
| Couples.GenerateInviteCode | src/firebase/coupleService.ts:6-13 | the generated code has exactly the requested length and every character is an upper-case letter or a digit |
| Couples.InviteCodeIsUpperCase | src/firebase/coupleService.ts:7 | upper-casing a generated code leaves it unchanged |
| Couples.AddBirthdayIfMissing | src/firebase/coupleService.ts:70-88 | the list is unchanged unless the person has a birthdate and no entry bears the birthday name, in which case exactly that birthday is appended; afterwards a person with a birthdate has a birthday entry, and no name's count grows except from zero to one |
| Couples.CreateCouple | src/firebase/coupleService.ts:16-43 | without a user nothing is written and "User not authenticated" is thrown; otherwise the new couple is stored under the fresh id; success returns that id and the generated code, and the creator's profile then names the couple |
| Couples.CreateCoupleRecord | src/firebase/coupleService.ts:20-36 | the new couple has only the creator as member, the 8-character generated code, and exactly one recurring "&lt;name&gt;'s Birthday" entry if the creator has a birthdate, none otherwise |
| Couples.ArrayUnion | src/firebase/coupleService.ts:91 | the element ends up present; an element already present leaves the array unchanged, otherwise it is appended |
| Couples.JoinCoupleByCode | src/firebase/coupleService.ts:45-100 | a failure that changed the store can only be the missing-profile write; success returns the matched couple's id |
| Couples.JoinGuards | src/firebase/coupleService.ts:46-64 | no user, an unknown code, a full couple and an existing member each fail with their message and leave the store unchanged; "full" is checked before "already a member" |
| Couples.JoinSuccess | src/firebase/coupleService.ts:70-93 | the members become the old members plus the joiner; the old dates stay in place as a prefix and at most two birthdays are added; no unique name is duplicated; the new dates are the old ones with the joiner's and then the partner's birthday appended when missing, so each birthday is present when its person has a birthdate; the joiner's profile names the couple; other couples are unchanged |
| Couples.ApplyDetails | src/firebase/coupleService.ts:122-130 | updatedAt is set; the status and the story change only when given non-empty; the anniversary changes whenever given; every other field is unchanged |
| Couples.UpdateCoupleDetails | src/firebase/coupleService.ts:113-131 | an empty couple id fails with "Couple ID is required."; success happens exactly for a non-empty id of a stored couple and writes the applied details; a failure writes nothing |
| Couples.AddSpecialDate | src/firebase/coupleService.ts:133-152 | an empty couple id, an empty name and the date 0 are rejected in that order; success happens exactly when the couple exists; it returns the new entry with the given name, date and flag and appends it to the couple's dates (a missing list counts as empty); only that couple's dates and update time are written, and the users, the other couples and the couple's other fields are unchanged |
| Couples.UpdateSpecialDate | src/firebase/coupleService.ts:154-182 | an empty couple id and a missing couple fail with their messages; a failure writes nothing |
| Couples.UpdateSpecialDateEffect | src/firebase/coupleService.ts:159-178 | the id "anniversary" writes only that couple's anniversary and update time; any other id replaces the first entry with that id, keeping the length and every other entry, and writes only the dates and the update time; with no such entry it fails with "Special date not found."; the users and the other couples are unchanged |
| Couples.DeleteSpecialDate | src/firebase/coupleService.ts:184-204 | an empty couple id gives "Couple ID is required."; "anniversary" is refused; an unknown couple gives "Couple not found."; success happens exactly for an existing couple; the kept dates are exactly the entries with another id, in their order, and only they and the update time are written |
| SpecialDatesView.Normalize | src/components/profile/SpecialDates.tsx:97-102 | a missing recurring flag becomes true; the other fields are kept |
| SpecialDatesView.Items | src/components/profile/SpecialDates.tsx:86-109 | the anniversary entry comes first exactly when the couple's anniversary is set, followed by every stored entry normalised, in stored order |
| SpecialDatesView.AnniversaryHeadsRecurring | src/components/profile/SpecialDates.tsx:86-93 | a set anniversary heads the recurring group |
| SpecialDatesView.GroupsPartitionItems | src/components/profile/SpecialDates.tsx:95-109 | every entry of the recurring group recurs and no one-off entry does; together the two groups hold every shown entry exactly once |
| SpecialDatesView.Ordered | src/components/profile/SpecialDates.tsx:122-128 | the list is a permutation of the shown entries with the recurring group first, sorted by next occurrence, then the one-off group sorted by date |
| SpecialDatesView.RecurringInCalendarOrder | src/components/profile/SpecialDates.tsx:123 | in the recurring group an earlier entry's next occurrence is never later in the calendar than a later entry's |
| SpecialDatesView.UpcomingNotPast | src/components/profile/SpecialDates.tsx:111-120 | the next occurrence has the entry's month and day, is not before today and is at most next year |
| Calendar.NextOccurrence | src/components/profile/SpecialDates.tsx:115-118 | the result has the given month and day, is not before today, falls in this year or the next, and is the earliest such year |
| SpecialDatesView.RoundDiv | src/components/profile/SpecialDates.tsx:74 | the quotient rounded half up: twice the dividend lies within half a divisor of twice the quotient times the divisor |
| SpecialDatesView.RecurringLabel | src/components/profile/SpecialDates.tsx:66-79 | 0 days gives Today and 1 gives Tomorrow (both if and only if); 2 to 7 days are shown as days; up to 30 as weeks rounded to nearest; beyond that as months rounded to nearest |
| SpecialDatesView.OneOffLabelAsWritten | src/components/profile/SpecialDates.tsx:19-47 | a non-negative day difference, and only that, gives "In N days"; fewer than 14 days back gives "N days ago"; further back the years and months are taken with a borrowed year exactly when the month difference is negative or zero with the day not reached |
| SpecialDatesView.OneOffLabelAsWrittenMonths | src/components/profile/SpecialDates.tsx:28-46 | against the months actually elapsed, the label is exact once the day of month is reached, one month too many when it is not and the months differ, and whole years only (eleven months short) in the same month |
| SpecialDatesView.OneOffLabelAddsMonth | src/components/profile/SpecialDates.tsx:28-38 | today 2024-03-05 and a date 2023-01-10 read "1 year and 2 months ago" as written, while 1 year and 1 month have elapsed |
| SpecialDatesView.OneOffLabelDropsElevenMonths | src/components/profile/SpecialDates.tsx:28-46 | a date 361 days back, same month, with its day of month not yet reached, is labelled 51 weeks ago although 11 months have elapsed |
| SpecialDatesView.YearsMonthsElapsed | src/components/profile/SpecialDates.tsx:28-34 | the years and the months below twelve add up to the elapsed whole months |
| SpecialDatesView.ElapsedMonthsBrackets | src/components/profile/SpecialDates.tsx:28-34 | the elapsed-month count is exact: that many months after the date has been reached by today, and one more has not |
| SpecialDatesView.OneOffLabel | src/components/profile/SpecialDates.tsx:19-47 | as above for upcoming and recent dates; for older dates the label is whole years when the elapsed months are a multiple of 12, years and months otherwise, months under a year, and weeks when less than a month has elapsed |
| DateForms.ParseDateInput | src/components/profile/UpdateSpecialDateModal.tsx:48-49 | a date comes out exactly when the first three '-'-separated fields are digit strings, and it is their values with the month made 0-based |
| Text.PadStart2 | src/components/profile/UpdateSpecialDateModal.tsx:34-35 | a short text is padded to two characters and a longer one is kept; the digits keep their value |
| Text.Split | src/components/profile/UpdateSpecialDateModal.tsx:48 | splitting yields at least one field, no field holds the separator, and joining the fields with the separator gives the text back |
| Text.SplitThree | src/components/profile/UpdateSpecialDateModal.tsx:48 | three separator-free fields joined by the separator split back into exactly those fields |
| Text.NumberOf | src/components/profile/UpdateSpecialDateModal.tsx:48 | the empty text reads as 0; a digit string reads as its value; anything else as not a number |
| Text.NumberOfDecimal | src/components/profile/UpdateSpecialDateModal.tsx:48 | a number's decimal spelling, also when padded to two digits, reads back as that number |
| DateForms.FormatThenParse | src/components/profile/UpdateSpecialDateModal.tsx:32-36 | parsing the text formatted for a date with a non-negative year gives back that date |
| DateForms.NegativeYearLost | src/components/profile/UpdateSpecialDateModal.tsx:33-36 | a negative year does not survive formatting and parsing |
| DateForms.SyncUpdateForm | src/components/profile/UpdateSpecialDateModal.tsx:28-44 | closing resets the fields; opening on a selected entry fills its name, formatted date and flag (defaulting to recurring); opening with nothing selected keeps the fields |
| DateForms.SaveUpdate | src/components/profile/UpdateSpecialDateModal.tsx:46-52 | the save call happens exactly when the name, the date text and a selection are present, and it carries the selected entry's id and the typed name |
| DateForms.DeleteSelected | src/components/profile/UpdateSpecialDateModal.tsx:54-58 | delete passes the selected id, and happens exactly when an entry is selected |
| DateForms.OpenThenSaveKeepsEntry | src/components/profile/UpdateSpecialDateModal.tsx:29-50 | opening on a named entry and saving at once hands back its id, name, calendar date and flag |
| DateForms.SyncAddForm | src/components/profile/AddSpecialDateModal.tsx:23-30 | closing resets to an empty name, an empty date and recurring; while open the fields are kept |
| DateForms.SaveAdd | src/components/profile/AddSpecialDateModal.tsx:32-39 | the save call happens exactly when the name and the date text are non-empty, and it carries the name and the flag |
| DateForms.AddSavesTypedDate | src/components/profile/AddSpecialDateModal.tsx:34-37 | a date typed as "YYYY-MM-DD" reaches the callback as that year, 0-based month and day |
| ProfilePage.SaveSpecialDate | src/pages/ProfilePage.tsx:49-70 | without a couple id only the error is set; otherwise the store is the service's, and on success the returned entry is appended to the local list (a missing list counts as empty); a failure records its message |
| ProfilePage.ClickDate | src/pages/ProfilePage.tsx:72-75 | selects the entry, opens the update dialog, and changes nothing else |
| ProfilePage.ReplaceAllById | src/pages/ProfilePage.tsx:89 | every entry with the id is replaced and the others are kept, at the same length |
| ProfilePage.UpdateSpecialDate | src/pages/ProfilePage.tsx:77-98 | without a couple id only the error is set; on success every local entry with the id is replaced; a failure records its message |
| ProfilePage.DeleteSpecialDate | src/pages/ProfilePage.tsx:100-120 | without a couple id only the error is set; on success exactly the local entries with the id are removed; a failure records its message |
| ProfilePage.EditField | src/pages/ProfilePage.tsx:122-127 | remembers the field and its text, opens the dialog and clears the error, keeping the couple |
| ProfilePage.MergeField | src/pages/ProfilePage.tsx:138-141 | only the edited field of the local couple changes |
| ProfilePage.SaveFieldMirrorsStore | src/pages/ProfilePage.tsx:131-146 | after saving a non-empty text, a page that showed the stored couple shows it again, apart from the update time |
| ProfilePage.SaveField | src/pages/ProfilePage.tsx:129-148 | without a couple id or a field only the error is set; on success just that field is merged locally |
| ProfilePage.AddKeepsSync | src/pages/ProfilePage.tsx:58-61 | after a successful add with a fresh id the local list equals the stored one |
| ProfilePage.DeleteKeepsSync | src/pages/ProfilePage.tsx:109-112 | after a successful delete the local list equals the stored one |
| ProfilePage.UpdateKeepsSync | src/pages/ProfilePage.tsx:86-90 | with unique ids, replacing every local match agrees with the service replacing the first match |
| ProfilePage.AnniversaryEditNotMirrored | src/pages/ProfilePage.tsx:86-90 | editing the anniversary entry changes the stored anniversary but not the local one |
| ProfilePage.EmptyFieldNotStored | src/pages/ProfilePage.tsx:138-141 | saving an empty text blanks the local field while the stored field keeps its value |
| UserInfo.Assemble | src/components/UserInfoModal.tsx:77-79 | a date exists exactly when day, month and year are all chosen, and then it is built from them with the month made 0-based |
| Calendar.KeepsDayInRange | src/components/UserInfoModal.tsx:82 | for a month 1..12, building the date keeps the day exactly when the day exists in that month (29 February only in leap years; the 31st only in the seven long months) |
| UserInfo.Submit | src/components/UserInfoModal.tsx:73-103 | a day that overflows its month in the birthdate fails with "Please enter a valid birthdate."; the anniversary is checked the same way only for the first partner; otherwise exactly the entered fields are submitted |
| UserInfo.BirthYears | src/components/UserInfoModal.tsx:106 | 71 years, newest first, exactly those from ten to eighty years back |
| UserInfo.AnniversaryYears | src/components/UserInfoModal.tsx:107 | 80 years, newest first, exactly this year and the 79 before it |
| UserInfo.OneTo | src/components/UserInfoModal.tsx:108-109 | 1 to n in ascending order, each once |
| UserInfo.OfferedBirthdateAccepted | src/components/UserInfoModal.tsx:82-85 | a birthdate picked from the offered options is accepted exactly when its day exists in that month and year |
| UserInfo.PartnerAnniversaryUnchecked | src/components/UserInfoModal.tsx:91-94 | 31 February as an anniversary passes for the joining partner and is rejected for the first partner |
| Text.ToUpperAscii | src/pages/CoupleLinkingPage.tsx:211 | same length; no ASCII lower-case letter remains; every other character stays in place |
| Text.ToUpperAsciiIdempotent | src/pages/CoupleLinkingPage.tsx:211 | upper-casing twice equals upper-casing once, and text without lower-case letters is left as it is |
| Linking.TypeCode | src/pages/CoupleLinkingPage.tsx:211 | the code field holds the typed text upper-cased; nothing else changes |
| Linking.GeneratedCodeNeverJoinable | src/pages/CoupleLinkingPage.tsx:235 | typing a generated code never enables the join button as written |
| Linking.GeneratedCodeJoinable | src/pages/CoupleLinkingPage.tsx:235 | with the gate at the generated length, a typed generated code enables the button and is kept as typed |
| Linking.ClickCreate | src/pages/CoupleLinkingPage.tsx:17-34 | without a user only the error is set; on success the code and the couple id are shown; a failure records its message |
| Linking.Continue | src/pages/CoupleLinkingPage.tsx:36-40 | the user's couple id is set only when both the user and a new couple id exist |
| Linking.HandleJoin | src/pages/CoupleLinkingPage.tsx:50-67 | without a user only the error is set; otherwise loading ends, on success the user's couple id is the joined couple and the page changes only by the cleared error and the ended loading, on failure the join's message is shown and the user is unchanged |
| Linking.ClickJoin | src/pages/CoupleLinkingPage.tsx:235 | with the button gated as written (exactly 6 characters, not loading) a disabled click changes nothing; an enabled click behaves as the join handler |
| Linking.ClickJoinCorrected | src/pages/CoupleLinkingPage.tsx:50-67 | the same click with the gate at the generated code length |
| Linking.CreateThenJoinAsWritten | src/pages/CoupleLinkingPage.tsx:235 | as written, after one partner creates a couple and the other types the shown code, the join click changes nothing and the couple still has only its creator |
| Linking.CreateThenJoin | src/pages/CoupleLinkingPage.tsx:17-67 | with the corrected gate, one partner creates, the other types the shown code and joins; both profiles then name the couple, whose members are the two of them |
| Notifications.StoredSummary | src/firebase/notificationService.ts:12 | an absent or empty summary is stored as null, any other as given |
| Notifications.Create | src/firebase/notificationService.ts:6-17 | exactly one document is added with the given recipient, type and title, unread, with the stored summary and data defaulting to empty; the others are unchanged |
| Notifications.Deliver | src/firebase/notificationService.ts:30-39 | one item per listed document, with its document id as notificationId |
| Notifications.DeliveredSnapshot | src/firebase/notificationService.ts:25-45 | the list holds exactly the uid's notifications, newest first |
| Notifications.MarkRead | src/firebase/notificationService.ts:52-57 | fails exactly for a missing id; otherwise only that notification becomes read |
| Notifications.MarkAll | src/firebase/notificationService.ts:63-73 | every notification of the uid becomes read and every other user's is untouched |
| Notifications.Delete | src/firebase/notificationService.ts:80-83 | exactly that id is removed |
| Notifications.DeleteFromSnapshot | src/firebase/notificationService.ts:80-83 | deleting one of the user's notifications removes exactly its entry from the user's delivered list, the rest keep their order, and the unread count does not grow |
| Notifications.SnapshotAfterDelete | src/firebase/notificationService.ts:80-83 | the old answer without the deleted id answers the user's query after the delete |
| Notifications.DeleteOtherKeepsSnapshot | src/firebase/notificationService.ts:80-83 | deleting a document outside the user's list leaves the delivered list as it was |
| Notifications.OnUser | src/hooks/useNotifications.ts:13-17 | signed out, the list is emptied, loading stops and nothing is subscribed; signed in, loading starts on that uid's subscription |
| Notifications.OnSnapshot | src/hooks/useNotifications.ts:22-26 | a snapshot replaces the list, stops loading and clears the error |
| Notifications.UnreadCount | src/hooks/useNotifications.ts:68 | at most the list length, and zero exactly when every notification is read |
| Notifications.MarkAsRead | src/hooks/useNotifications.ts:30-42 | signed out, "User not authenticated." is set and nothing is written; otherwise the service's result, with a failure's message recorded |
| Notifications.MarkAllAsRead | src/hooks/useNotifications.ts:45-48 | signed out, the error is set and nothing is written; otherwise all of the uid's notifications are marked |
| Notifications.DeleteNotification | src/hooks/useNotifications.ts:57-60 | signed out, the error is set and nothing is written; otherwise the notification is deleted |
| Notifications.MarkAllClearsUnread | src/hooks/useNotifications.ts:45-48 | after marking all, the uid's list has no unread notification and other users' are untouched |
| Notifications.PathFor | src/config/notification-config.ts:22-41 | chat goes to /chat, milestone to /profile, both nudge types to /goals, advice to /quackzulting/ plus the session id; exactly the unlisted types have no entry |
| Notifications.ItemPath | src/components/notifications/NotificationItem.tsx:17-19 | the item's path is "#" exactly for a type with no entry |
| Notifications.ClickItem | src/components/notifications/NotificationItem.tsx:22-25 | a click always navigates to the item's path and marks it read only if unread |
| Notifications.ClickReadsItem | src/components/notifications/NotificationItem.tsx:22-24 | clicking an unread item of a signed-in user makes exactly that notification read |
| Goals.MarkItems | src/firebase/goalService.ts:125-128 | same length, ids and texts; with no item id every item gets the flag, otherwise only items with that id |
| Goals.MarkItemsTwice | src/firebase/goalService.ts:125-128 | marking twice is the same as marking once |
| Goals.UpdateChecklistFromNudge | src/firebase/goalService.ts:112-135 | fails with "Goal not found" exactly for a missing goal; otherwise only that goal's checklist (a missing one read as empty) and updatedAt change |
| Goals.NudgeData | src/firebase/goalService.ts:76-82 | exactly the four keys, the item id as null when absent |
| Goals.NudgeTitle | src/firebase/goalService.ts:87 | the title starts with the sender's name and ends with the goal title |
| Goals.SendNudge | src/firebase/goalService.ts:67-91 | one unread nudge notification for the recipient with that title, the message as summary and the nudge data; the others are unchanged |
| Goals.ResponseTitle | src/firebase/goalService.ts:104 | the title starts with the responder's name and quotes the goal title |
| Goals.SendNudgeResponse | src/firebase/goalService.ts:95-107 | one unread response notification for the recipient with the response as summary; the others are unchanged |
| Goals.PersonalGoals | src/hooks/useGoals.ts:39-42 | keeps exactly the personal goals |
| Goals.CoupleGoals | src/hooks/useGoals.ts:44-47 | keeps exactly the shared goals |
| Goals.GoalsPartition | src/hooks/useGoals.ts:39-47 | the two lists together hold every goal exactly once |
| Goals.NudgeResponseDone | src/hooks/useGoals.ts:49-70 | an unknown goal or one without a checklist leaves everything unchanged; otherwise only goals with that id change, and only their checklist; the store is the service's result, or unchanged when it fails |
| Goals.OptimisticMatchesStored | src/hooks/useGoals.ts:49-70 | when the local and stored checklists agree beforehand, the optimistic update agrees with the stored result |
| Goals.FilteredGoals | src/pages/GoalsPage.tsx:18-29 | a goal is kept exactly when it passes the filter and archived goals are shown or it is not archived |
| Goals.AllFilterKeepsGoals | src/pages/GoalsPage.tsx:20-28 | "all" with archived shown keeps the list; without, it drops exactly the archived goals |
| Goals.OwnershipOf | src/pages/GoalsPage.tsx:31-34 | shared goals are ours; personal goals are mine exactly when I created them, otherwise the partner's |
| Goals.FiltersMatchOwnership | src/pages/GoalsPage.tsx:21-34 | the "us" and "my" filters pass exactly the goals classified ours and mine; the partner filter passes only the partner's |
| Goals.ToggleItems | src/components/goals/Checklist.tsx:25-27 | same length, ids and texts; only items with the id flip |
| Goals.ToggleTwice | src/components/goals/Checklist.tsx:25-27 | toggling twice restores the checklist |
| Goals.UpdateChecklist | src/firebase/goalService.ts:112-135 | fails exactly for a missing goal; otherwise only that goal's checklist and updatedAt change |
| Goals.ToggleChecklistItem | src/components/goals/Checklist.tsx:20-32 | a locked goal, a goal without a checklist or one without a stored id writes nothing; otherwise the goal's own checklist, toggled, is written |
| Goals.CompletedCount | src/components/goals/GoalCard.tsx:22-28 | at most the length; equal to it exactly when all are completed; zero exactly when none is |
| Goals.Progress | src/components/goals/GoalCard.tsx:22-28 | between 0 and 100; 0 for an empty checklist; otherwise the completed share times 100; all done gives 100, none gives 0 |
| Goals.DoneForAllCompletes | src/firebase/goalService.ts:126 | marking every item completed brings progress to 100 |
| Goals.Clamp | src/components/goals/ProgressBar.tsx:12 | between 0 and 100; values inside are kept, below give 0, above give 100 |
| Goals.ClampIdempotent | src/components/goals/ProgressBar.tsx:12 | clamping twice is clamping once |
| Goals.ProgressNeedsNoClamp | src/components/goals/ProgressBar.tsx:12 | the clamp never changes a computed progress |
| GoalForms.InitialRows | src/components/goals/EditGoalModal.tsx:21 | one row per item carrying its text and its position, or a single blank row when there is no checklist |
| GoalForms.ChangeRow | src/components/goals/EditGoalModal.tsx:25-29 | only the row at the index changes its text |
| GoalForms.AddRow | src/components/goals/EditGoalModal.tsx:31-33 | appends one blank row |
| GoalForms.RemoveRow | src/components/goals/EditGoalModal.tsx:35-38 | removes exactly the row at the index, keeping the order of the rest |
| GoalForms.KeptRows | src/components/goals/EditGoalModal.tsx:49-50 | keeps exactly the rows that are not blank |
| GoalForms.SavedItem | src/components/goals/EditGoalModal.tsx:51-57 | the item has the text, a reused id when one exists, and is completed exactly when the reused item was |
| GoalForms.FinalChecklistAsWritten | src/components/goals/EditGoalModal.tsx:49-58 | the k-th non-blank text takes the id and flag of the stored item at position k |
| GoalForms.FinalChecklist | src/components/goals/EditGoalModal.tsx:49-58 | each non-blank row takes the id and flag of the stored item it was opened from; new rows are fresh and not completed |
| GoalForms.UneditedSaveKeepsChecklist | src/components/goals/EditGoalModal.tsx:21-58 | saving without edits keeps the checklist |
| GoalForms.RemoveKeepsOtherItems | src/components/goals/EditGoalModal.tsx:35-58 | removing a row deletes exactly its item; the others keep their ids and flags |
| GoalForms.RemovalShiftsCompletion | src/components/goals/EditGoalModal.tsx:35-58 | removing the first of two items as written moves its completion onto the second |
| GoalForms.OpenEdit | src/components/goals/EditGoalModal.tsx:17-23 | the form opens with the goal's title, details, type and checklist rows |
| GoalForms.SubmitEdit | src/components/goals/EditGoalModal.tsx:40-79 | a missing title or due date sets the required-fields error; a missing goal id just closes; a failed update sets the save error; otherwise the goal is updated with the checklist built as written and the dialog closes |
| GoalForms.SubmitEditCorrected | src/components/goals/EditGoalModal.tsx:40-79 | the same outcomes, with each kept row saved with the item it was opened from |
| GoalForms.UneditedSaveAsWrittenKeepsChecklist | src/components/goals/EditGoalModal.tsx:49-58 | saving as written without editing any row gives the stored checklist back |
| GoalForms.ChangeText | src/components/goals/AddGoalModal.tsx:26-30 | only the text at the index changes |
| GoalForms.AddText | src/components/goals/AddGoalModal.tsx:32-34 | appends one blank text |
| Seqs.RemoveAt | src/components/goals/AddGoalModal.tsx:36-39 | drops exactly the entry at an index inside the list, keeping the others in order; any other index changes nothing |
| GoalForms.NewChecklist | src/components/goals/AddGoalModal.tsx:47-49 | the non-blank texts in order, each a fresh item not completed |
| GoalForms.SubmitAdd | src/components/goals/AddGoalModal.tsx:41-67 | without title, due date, user or couple nothing is stored; otherwise one goal is added with the couple, the creator, the title, type, due date and details, and the new checklist |
| GoalForms.NewGoalStartsAtZero | src/components/goals/AddGoalModal.tsx:47-49 | a new goal's progress is 0 |
| Nudges.ToggleSelected | src/components/goals/Nudge.tsx:21-25 | a selected id is removed, otherwise appended |
| Nudges.ToggleSelectedTwice | src/components/goals/Nudge.tsx:21-25 | toggling twice restores the selection as a set, and exactly when the id was not selected |
| Nudges.SelectAll | src/components/goals/Nudge.tsx:27-34 | the flag flips; turning it on selects every item id, turning it off clears the selection |
| Nudges.ItemsToNudge | src/components/goals/Nudge.tsx:39-45 | all items when select-all is on, otherwise exactly the selected items, in checklist order |
| Nudges.Requests | src/components/goals/Nudge.tsx:47-68 | one request per item, or a single goal-wide request with no item; an empty message falls back to the default texts |
| Nudges.SendAll | src/components/goals/Nudge.tsx:47-68 | one new notification per request under distinct fresh ids, each with its request's item and message; the others are unchanged |
| Nudges.SendNudges | src/components/goals/Nudge.tsx:36-74 | without a user or partner nothing changes; otherwise the requests are sent to the partner and the dialog resets |
| Nudges.NothingChosenNudgesGoal | src/components/goals/Nudge.tsx:39-68 | with nothing selected exactly one goal-wide nudge is sent |
| Nudges.Respond | src/components/notifications/NudgeResponseModal.tsx:15-35 | without a user or partner nothing happens; otherwise the response goes to the partner; the checklist is updated only for "Done!" with a goal id, with a missing item id as null |
| Nudges.DoneAnswersTheNudge | src/components/notifications/NudgeResponseModal.tsx:24-31 | answering "Done!" to a nudge about one item completes exactly that item in the stored goal |
| Quacks.Increment | src/firebase/quackService.ts:7-17 | fails exactly for an empty user; zero writes nothing; otherwise the count becomes the old count (0 when absent) plus the amount and other users are unchanged |
| Quacks.IncrementsAdd | src/firebase/quackService.ts:11-16 | successive increments add up |
| Quacks.Reported | src/firebase/quackService.ts:19-40 | nothing is subscribed for an empty user; a missing document or an error reports 0; otherwise the stored count |
| Quacks.ListenerFor | src/components/profile/Stats.tsx:18-24 | a listener is opened exactly when the uid is set |
| Quacks.Open | src/components/profile/Stats.tsx:14-26 | the own and partner listeners are opened exactly when their uids are set |
| Quacks.Close | src/components/profile/Stats.tsx:28-31 | cleanup drops every listener and keeps the counts |
| Quacks.OnCount | src/components/profile/Stats.tsx:19-23 | a count changes only through its own open listener |
| Quacks.MineShowsOwnCount | src/components/profile/Stats.tsx:18-20 | the own count shows the stored count and the partner's is untouched |
| Quacks.ButtonQuack | src/components/DuckClicker.tsx:52-81 | the count grows by exactly one; the text becomes the first drawn quack that differs from the current one; the sound plays exactly when not muted |
| Quacks.DuckClick | src/components/DuckClicker.tsx:34-50 | a click while animating, or without the image, changes nothing; otherwise it sets the lock; the count never changes |
| Quacks.AnimationEnd | src/components/DuckClicker.tsx:44-49 | the timeout releases the lock and keeps the count |
| Quacks.ToggleMute | src/components/DuckClicker.tsx:30-32 | only the mute flag flips |
| Quacks.ToggleMuteIndependent | src/components/DuckClicker.tsx:30-32 | muting twice restores the clicker, and muting commutes with a duck click and with the end of the animation |
| Quacks.ClickLockCycle | src/components/DuckClicker.tsx:34-50 | a click locks, a second click is ignored, and after the timeout a click locks again |
| Quacks.ClickStreak | src/components/Streak.tsx:9-12 | the flag flips; the value becomes 100 when it was off and 0 when it was on |
| Quacks.StreakRoundTrip | src/components/Streak.tsx:9-12 | two clicks restore the state and every click keeps it consistent |
| Quacks.InitialStreakConsistent | src/components/Streak.tsx:6-7 | the initial state is consistent |
| Chat.Delivered | src/firebase/chatService.ts:20-23 | each message takes its document id as msgId, overriding any id in the data |
| Chat.Subscribe | src/firebase/chatService.ts:14-29 | the messages are sorted by timestamp and are a permutation of the delivered documents |
| Chat.SubscribeShowsThread | src/firebase/chatService.ts:14-29 | every message of the thread appears, and each under its own id |
| Seqs.SortBy | src/firebase/chatService.ts:26 | sorted by the key, same length, a permutation of the input |
| Chat.SendMessage | src/firebase/chatService.ts:32-52 | one message is added with the given fields, not edited, mode defaulting to normal; the others are unchanged |
| Chat.EditMessage | src/firebase/chatService.ts:55-61 | fails exactly for a missing id; otherwise only the content, the edited flag and editedAt change |
| Chat.EditKeepsSender | src/firebase/chatService.ts:32-61 | editing a sent message keeps its sender, mode and timestamp |
| Text.Trim | src/components/ChatInput.tsx:13 | empty exactly for blank text; otherwise starts and ends with a non-space |
| Chat.Submit | src/components/ChatInput.tsx:11-17 | blank text is never sent; other text is sent untrimmed and the field is cleared |
| Chat.DisabledIffNothingSent | src/components/ChatInput.tsx:27 | send is disabled exactly when the text is blank, which is exactly when nothing would be sent |
| Quackzulting.CreateSession | src/firebase/quackzultingService.ts:13-21 | one active session is added for the couple |
| Quackzulting.CreatedSessionPrivate | src/firebase/quackzultingService.ts:13-21 | the new session is stored, and the access rules let exactly its owner read or write it |
| Quackzulting.AddMessage | src/firebase/quackzultingService.ts:24-49 | the question and the reply are added, the reply stamped one after its clock reading; the others are unchanged |
| Quackzulting.Subscribe | src/firebase/quackzultingService.ts:52-70 | the messages are sorted by timestamp and are a permutation of the delivered documents |
| Quackzulting.ReplyFollowsQuestion | src/firebase/quackzultingService.ts:24-70 | the reply is listed after its question |
| Quackzulting.SendSummary | src/firebase/quackzultingService.ts:73-93 | one unread advice item is added under the partner's inbox; the rest of the tree is unchanged |
| Quackzulting.SummaryNotListed | src/firebase/quackzultingService.ts:73-93 | every answer of the partner's notification query delivers the same list and unread count as before the summary was sent |
| Routing.Guard | src/components/ProtectedRoute.tsx:15-64 | loading shows the spinner; the auth page renders only signed out and otherwise sends to / or /link-couple; elsewhere a signed-out user goes to /auth; the linking route sends a linked user to /; a couple route sends an unlinked user to /link-couple |
| Routing.GuardProtects | src/components/ProtectedRoute.tsx:22-63 | a protected outlet never renders signed out; the couple route renders only for linked users, the linking route only for unlinked ones |
| Routing.RedirectSettles | src/components/ProtectedRoute.tsx:31-60 | every redirect lands on one of the three routes, and that route renders, under the assumed route flags of `Routing.FlagsOf` |
| Routing.AppContent | src/App.tsx:9-33 | loading shows the spinner, a signed-out user the sign-in page, an unlinked user the linking page, a linked user the home screen |
| Routing.AppAgreesWithGuard | src/App.tsx:9-33 | the app's gate and the route guard, were it mounted with the flags of `Routing.FlagsOf`, agree on which page renders |
| SecurityRules.RulesDecide | src/firebase/security-rules.ts:10-51 | for gets, lists and writes alike, the listed allow rules grant exactly what the per-path decision grants |
| SecurityRules.QueryDecide | src/firebase/security-rules.ts:10-51 | a collection query is allowed exactly when the list of every document its filters admit is allowed by the per-path decision |
| SecurityRules.InviteCodeQueryDenied | src/firebase/security-rules.ts:19-20 | the invite-code query admits couples the requester is not in, so it is denied |
| SecurityRules.NotificationQueryDenied | src/firebase/security-rules.ts:38-39 | the notification queries by uid admit documents under other ids, so they are denied |
| SecurityRules.ChatQueryNeedsMember | src/firebase/security-rules.ts:25-26 | listing one couple's chat messages is allowed exactly for a signed-in member of that couple |
| SecurityRules.UnlistedQueryDenied | src/firebase/security-rules.ts:49-50 | the goal query and the session-message query are denied whenever they can return a document |
| SecurityRules.NeverRevokes | src/firebase/security-rules.ts:14-15 | an always-false rule grants nothing and removing its operations changes no decision |
| SecurityRules.OwnerOnly | src/firebase/security-rules.ts:10-35 | user and session documents are granted exactly to their owner |
| SecurityRules.CoupleCreationDenied | src/firebase/security-rules.ts:19-22 | creating a couple document is never granted |
| SecurityRules.NotificationReadNeedsOwnId | src/firebase/security-rules.ts:38-41 | reading a notification whose id is not the reader's uid is denied |
| SecurityRules.UnlistedDenied | src/firebase/security-rules.ts:49-51 | goals, quack counts, session messages and notification items are always denied |

## Left out

- Firestore I/O: network reads and writes, query plans, transactions, `serverTimestamp` and listener timing. A collection is a map, a query answer is a parameter, and a failed write surfaces as "No document to update".
- Randomness: `Math.random` in invite codes, document ids, quack texts and the reply service. Each is a parameter (draws, fresh ids, the reply text).
- Clocks: `Date.now`, `new Date()` and server time. Each is a parameter (`now`, `today`); the conversion from a timestamp to a local calendar date is a function parameter.
- DateForms.OpenThenSaveKeepsEntry: states only that the dialog hands back the calendar date it was filled with. The update dialog fills its field with local getters (src/components/profile/UpdateSpecialDateModal.tsx:32-36) but its save builds the timestamp with `Date.UTC` (line 49, as `AddSpecialDateModal.tsx:36` does), and the list reads dates with local getters again (src/components/profile/SpecialDates.tsx:28-31, 112-117 and 143). The conversion from the calendar date to the stored timestamp is not modelled: `ProfilePage.SaveSpecialDate` and `ProfilePage.UpdateSpecialDate` take the timestamp as a parameter. So the model does not show that west of UTC an entry saved unchanged is stored at UTC midnight and then listed as the previous day.
- React: rendering, effect scheduling, portals, CSS and animation classes, audio and `setTimeout` timing. The animation lock is a boolean.
- The counter with a pending delta, timed flushes and reconciliation: it does not exist in the source, where the clicker's count lives only in component state.
- Pure UI and wiring files (buttons, modals, layout, pages that only render), the identity-provider wrappers, the reply service and the auth context.
- Routing.FlagsOf: the source has no route table. src/main.tsx only wraps `App` in the router and the auth provider, and no file mounts `ProtectedRoute`. `Routing.FlagsOf` is a hypothesis about how the guard would be mounted for /auth, /link-couple and /. `Routing.Guard`, `Routing.GuardProtects`, `Routing.RedirectSettles` and `Routing.AppAgreesWithGuard` describe the guard component under that hypothesis; the page the app actually renders is `Routing.AppContent`.
- The progress bar's colour-luminance heuristic parses colour strings in floating point.
- The notification icon lookup: it is display only.
- The profile questionnaire's loading of the stored couple into its fields.
- Text.NumberOf: reads only the empty string and digit strings; signs, spaces, decimals and exponents become "not a number".
- Text.ToUpperAscii: upper-cases ASCII letters only, while JavaScript upper-cases all of Unicode.
- Goals.Progress: uses exact reals, not floating point; rounding and NaN are not modelled.
- Goals.Clamp: uses exact reals; a NaN percentage is not modelled.
- SpecialDatesView.Upcoming: `getUpcomingDate` on 29 February in a common year rolls over into March; the model keeps month and day as given.
- SpecialDatesView.UpcomingNotPast: states the next occurrence with month and day as given, so the 29 February roll-over into March is not covered.
- Calendar.NextOccurrence: keeps 29 February in a common year instead of rolling over into 1 March as JavaScript's `Date` does.
- SpecialDatesView.Ordered: states sortedness and permutation but not the tie order of JavaScript's stable sort.
- Chat.Subscribe: does not state the tie order among equal timestamps.
- Quackzulting.Subscribe: does not state the tie order among equal timestamps.
- GoalForms.ChangeRow: requires an index inside the list, whereas JavaScript would extend the array; the dialog only produces such indices.
- GoalForms.ChangeText: requires an index inside the list, for the same reason.
- Quacks.ButtonQuack: the random draws are a finite parameter that must contain a quack different from the current text; the source keeps drawing until one appears.
- Quacks.Open: the streak shown is the constant placeholder 10 of the source.
- Linking.CreateThenJoin: goes through `Linking.ClickJoinCorrected`, whose gate accepts the generated code length; with the gate as written (`Linking.ClickJoin`) the join never happens, as `Linking.CreateThenJoinAsWritten` states.
- GoalForms.RemoveKeepsOtherItems: is about the corrected checklist (`GoalForms.FinalChecklist`, saved by `GoalForms.SubmitEditCorrected`); the save as written (`GoalForms.SubmitEdit`) shifts completion flags, as `GoalForms.RemovalShiftsCompletion` states.
- Timestamps are integers; the `toMillis` conversion of server timestamps is not modelled.

Observations from the model that are not corrections:

- The security rules read `resource.data` when a couple is created, which is null then, so couple creation is denied (`SecurityRules.CoupleCreationDenied`).
- Notifications are stored under random document ids while the rules match `notifications/{uid}`, so a user can read only the notification whose id is their uid (`SecurityRules.NotificationReadNeedsOwnId`).
- Goals, quack counts and session messages fall under the default deny (`SecurityRules.UnlistedDenied`, `SecurityRules.UnlistedQueryDenied`).
- Rules do not filter query results. The invite-code query of src/firebase/coupleService.ts:48 and the notification queries of src/firebase/notificationService.ts:27 and :65 can return documents the requester may not read, so they are denied (`SecurityRules.InviteCodeQueryDenied`, `SecurityRules.NotificationQueryDenied`). Only the chat subscription is allowed, and only for members (`SecurityRules.ChatQueryNeedsMember`).
- The consultation summary is written to a per-user `items` sub-collection that the notification list never reads (`Quackzulting.SummaryNotListed`) and that the rules deny (`SecurityRules.UnlistedDenied`).
- The profile page does not mirror an anniversary edit locally (`ProfilePage.AnniversaryEditNotMirrored`).
- Saving an empty text blanks the local field, but the service skips empty texts (`ProfilePage.EmptyFieldNotStored`).
- The linking page imports `createCouple` and `joinCoupleByCode` as named exports, while src/firebase/coupleService.ts exports only the `coupleService` object. The model takes those calls to be the object's methods.

## Findings

| source | as written | input that shows it | evidently intended | confidence | as-written member | corrected member |
|---|---|---|---|---|---|---|
| src/pages/CoupleLinkingPage.tsx:235 | the join button is enabled only for a code of exactly 6 characters, while src/firebase/coupleService.ts:6 generates codes of 8 | any generated code, e.g. draws giving "ABCD1234" | the gate accepts the length codes are generated with | high (not executed) | Linking.CreateThenJoinAsWritten | Linking.CreateThenJoin |
| src/components/profile/SpecialDates.tsx:28-33 | the month difference ignores the day of month unless it is zero: with the day not reached, a non-zero difference counts one month too many, and a zero one borrows a year and takes `(0 + 12) % 12 = 0` months, so 11 elapsed months read as 0 | today 2024-03-05: date 2023-01-10 reads "1 year and 2 months ago" (13 months elapsed), and date 2023-03-10, 361 days back, reads "51 weeks ago" | the whole months elapsed, "1 year and 1 month ago" and "11 months ago" | high (not executed) | SpecialDatesView.OneOffLabelAsWrittenMonths | SpecialDatesView.OneOffLabel |
| src/components/goals/EditGoalModal.tsx:49-57 | the k-th non-blank text reuses the id and completed flag of the stored item at position k, so removing or blanking an earlier row shifts flags onto other texts | items [("a","Buy ring",done), ("b","Book table",not done)]; remove row 0 and save: ("a","Book table",done) | each kept row keeps the id and flag of the item it was opened from | high (not executed) | GoalForms.RemovalShiftsCompletion | GoalForms.SubmitEditCorrected |
