/** Goals ("duck quests") and their checklists: the goal service
    (src/firebase/goalService.ts), the goals hook (src/hooks/useGoals.ts),
    the page filter (src/pages/GoalsPage.tsx), the checklist component
    (src/components/goals/Checklist.tsx), the progress of a card
    (src/components/goals/GoalCard.tsx) and the progress bar's clamp
    (src/components/goals/ProgressBar.tsx). */
module Goals {
  import opened Wrappers
  import opened Seqs
  import opened Firestore
  import N = Notifications

  datatype ChecklistItem = ChecklistItem(id: string, text: string, completed: bool)

  datatype GoalType = Personal | Us

  datatype Priority = UrgentAndImportant | ImportantNotUrgent | UrgentNotImportant | NotUrgentNotImportant

  /** A goal document; timestamps are integers, and `checklist` is `None`
      when the stored field is missing or not an array. */
  datatype Goal = Goal(
    id: Option<string>,
    coupleId: string,
    createdBy: string,
    title: string,
    goalType: GoalType,
    dueDate: int,
    details: Option<string>,
    priority: Option<Priority>,
    checklist: Option<seq<ChecklistItem>>,
    done: Option<bool>,
    isArchived: Option<bool>,
    createdAt: int,
    updatedAt: int)

  /** The `goals` collection, from document id to document. */
  type GoalStore = map<string, Goal>

  const GoalNotFound := "Goal not found"

  /** A JavaScript truthiness test on an optional string: null and "" are false. */
  predicate Present(s: Option<string>)
  {
    s.Some? && s.value != ""
  }

  // ---------------------------------------------------------------------------
  // Completing checklist items from a nudge response
  // ---------------------------------------------------------------------------

  /** Whether a nudge about `itemId` concerns `item`: a nudge about no item
      concerns all of them. */
  predicate Concerns(itemId: Option<string>, item: ChecklistItem)
  {
    !Present(itemId) || item.id == itemId.value
  }

  /** Sets `completed` on the items the nudge concerns. */
  function MarkItems(items: seq<ChecklistItem>, itemId: Option<string>, completed: bool): (r: seq<ChecklistItem>)
    ensures |r| == |items|
    ensures forall i :: 0 <= i < |items| ==> r[i].id == items[i].id && r[i].text == items[i].text
    ensures forall i :: 0 <= i < |items| ==>
      r[i].completed == (if Concerns(itemId, items[i]) then completed else items[i].completed)
  {
    Map(items, (item: ChecklistItem) => if Concerns(itemId, item) then item.(completed := completed) else item)
  }

  /** Marking is idempotent. */
  lemma MarkItemsTwice(items: seq<ChecklistItem>, itemId: Option<string>, completed: bool)
    ensures MarkItems(MarkItems(items, itemId, completed), itemId, completed) == MarkItems(items, itemId, completed)
  {
    var once := MarkItems(items, itemId, completed);
    var twice := MarkItems(once, itemId, completed);
    forall i | 0 <= i < |items|
      ensures twice[i] == once[i]
    {
      assert Concerns(itemId, once[i]) == Concerns(itemId, items[i]);
    }
  }

  /** The transactional update of `updateChecklistFromNudge`. */
  function UpdateChecklistFromNudge(store: GoalStore, goalId: string, itemId: Option<string>, completed: bool, now: int): (r: Result<GoalStore>)
    ensures r.Err? <==> goalId !in store
    ensures r.Err? ==> r.error == GoalNotFound
    ensures r.Ok? ==> r.value.Keys == store.Keys
                      && (forall id :: id in store && id != goalId ==> r.value[id] == store[id])
                      && r.value[goalId].checklist.Some?
                      && r.value[goalId].updatedAt == now
                      && r.value[goalId] == store[goalId].(checklist := r.value[goalId].checklist, updatedAt := now)
    ensures r.Ok? ==> r.value[goalId].checklist.value == MarkItems(store[goalId].checklist.GetOr([]), itemId, completed)
  {
    if goalId !in store then Err(GoalNotFound)
    else
      var g := store[goalId];
      Ok(store[goalId := g.(checklist := Some(MarkItems(g.checklist.GetOr([]), itemId, completed)), updatedAt := now)])
  }

  // ---------------------------------------------------------------------------
  // Nudge notifications
  // ---------------------------------------------------------------------------

  /** The `data` record of a nudge. */
  function NudgeData(goalId: string, itemId: Option<string>, message: string, goalTitle: string): (d: map<string, N.Value>)
    ensures d.Keys == {"goalId", "checklistItemId", "nudgeMessage", "goalTitle"}
    ensures d["goalId"] == N.Str(goalId) && d["nudgeMessage"] == N.Str(message) && d["goalTitle"] == N.Str(goalTitle)
    ensures d["checklistItemId"] == (if itemId.Some? then N.Str(itemId.value) else N.Null)
  {
    map["goalId" := N.Str(goalId),
        "checklistItemId" := (if itemId.Some? then N.Str(itemId.value) else N.Null),
        "nudgeMessage" := N.Str(message),
        "goalTitle" := N.Str(goalTitle)]
  }

  function NudgeTitle(senderName: string, goalTitle: string): (t: string)
    ensures |t| > |senderName| + |goalTitle|
    ensures t[..|senderName|] == senderName && t[|t| - |goalTitle|..] == goalTitle
  {
    senderName + " nudged you about: " + goalTitle
  }

  /** `sendNudgeNotification`: one unread nudge for the recipient whose
      summary is the message. */
  function SendNudge(store: N.NotificationStore, newId: string, recipientId: string, senderName: string,
                     goalId: string, goalTitle: string, itemId: Option<string>, message: string, now: int): (r: N.NotificationStore)
    requires newId !in store
    ensures r.Keys == store.Keys + {newId}
    ensures forall id :: id in store ==> r[id] == store[id]
    ensures var n := r[newId];
      && n.uid == recipientId && n.kind == N.NudgeKind && !n.read
      && n.title == NudgeTitle(senderName, goalTitle)
      && n.summary == N.StoredSummary(Some(message))
      && n.data == NudgeData(goalId, itemId, message, goalTitle)
  {
    N.Create(store, newId, recipientId, N.NudgeKind, NudgeTitle(senderName, goalTitle), Some(message),
             Some(NudgeData(goalId, itemId, message, goalTitle)), now)
  }

  function ResponseTitle(senderName: string, goalTitle: string): (t: string)
    ensures |t| == |senderName| + |goalTitle| + 31
    ensures t[..|senderName|] == senderName && t[|t| - |goalTitle| - 1..|t| - 1] == goalTitle
  {
    senderName + " responded to your nudge for \"" + goalTitle + "\""
  }

  /** `sendNudgeResponseNotification`: the summary is the response, the data empty. */
  function SendNudgeResponse(store: N.NotificationStore, newId: string, recipientId: string, senderName: string,
                             goalTitle: string, response: string, now: int): (r: N.NotificationStore)
    requires newId !in store
    ensures r.Keys == store.Keys + {newId}
    ensures forall id :: id in store ==> r[id] == store[id]
    ensures var n := r[newId];
      && n.uid == recipientId && n.kind == N.NudgeResponse && !n.read
      && n.title == ResponseTitle(senderName, goalTitle)
      && n.summary == N.StoredSummary(Some(response))
      && n.data == map[]
  {
    N.Create(store, newId, recipientId, N.NudgeResponse, ResponseTitle(senderName, goalTitle), Some(response), None, now)
  }

  // ---------------------------------------------------------------------------
  // useGoals
  // ---------------------------------------------------------------------------

  function PersonalGoals(goals: seq<Goal>): (r: seq<Goal>)
    ensures forall i :: 0 <= i < |r| ==> r[i].goalType == Personal
    ensures forall i :: 0 <= i < |goals| ==> (goals[i] in r <==> goals[i].goalType == Personal)
  {
    Filter(goals, (g: Goal) => g.goalType == Personal)
  }

  function CoupleGoals(goals: seq<Goal>): (r: seq<Goal>)
    ensures forall i :: 0 <= i < |r| ==> r[i].goalType == Us
    ensures forall i :: 0 <= i < |goals| ==> (goals[i] in r <==> goals[i].goalType == Us)
  {
    Filter(goals, (g: Goal) => g.goalType == Us)
  }

  /** Personal and couple goals together are exactly the goals. */
  lemma GoalsPartition(goals: seq<Goal>)
    ensures |PersonalGoals(goals)| + |CoupleGoals(goals)| == |goals|
    ensures multiset(PersonalGoals(goals)) + multiset(CoupleGoals(goals)) == multiset(goals)
  {
    FilterPartition(goals, (g: Goal) => g.goalType == Personal, (g: Goal) => g.goalType == Us);
  }

  /** The hook's goals together with the store after an action. */
  datatype GoalsStep = GoalsStep(goals: seq<Goal>, store: GoalStore)

  /** The hook's `updateChecklistFromNudge`: the first goal with that id
      supplies the marked checklist, every goal with that id shows it at
      once, and then the transaction runs, its failure ignored. A goal
      without a checklist array stops the handler before any change. */
  function NudgeResponseDone(goals: seq<Goal>, store: GoalStore, goalId: string, itemId: Option<string>, now: int): (r: GoalsStep)
    ensures var k := FindIndex(goals, (g: Goal) => g.id == Some(goalId));
      (k == -1 || goals[k].checklist.None?) ==> r == GoalsStep(goals, store)
    ensures var k := FindIndex(goals, (g: Goal) => g.id == Some(goalId));
      (k >= 0 && goals[k].checklist.Some?) ==>
        && |r.goals| == |goals|
        && (forall i :: 0 <= i < |goals| && goals[i].id == Some(goalId) ==>
              r.goals[i] == goals[i].(checklist := Some(MarkItems(goals[k].checklist.value, itemId, true))))
        && (forall i :: 0 <= i < |goals| && goals[i].id != Some(goalId) ==> r.goals[i] == goals[i])
        && r.store == (match UpdateChecklistFromNudge(store, goalId, itemId, true, now)
                       case Ok(s) => s
                       case Err(_) => store)
  {
    var k := FindIndex(goals, (g: Goal) => g.id == Some(goalId));
    if k == -1 || goals[k].checklist.None? then GoalsStep(goals, store)
    else
      var marked := MarkItems(goals[k].checklist.value, itemId, true);
      var shown := Map(goals, (g: Goal) => if g.id == Some(goalId) then g.(checklist := Some(marked)) else g);
      var stored := match UpdateChecklistFromNudge(store, goalId, itemId, true, now)
                    case Ok(s) => s
                    case Err(_) => store;
      GoalsStep(shown, stored)
  }

  /** When the hook's goal shows the stored checklist, the optimistic
      checklist is the one the transaction writes. */
  lemma OptimisticMatchesStored(goals: seq<Goal>, store: GoalStore, goalId: string, itemId: Option<string>, now: int, k: nat)
    requires k < |goals| && goals[k].id == Some(goalId) && goals[k].checklist.Some?
    requires forall i :: 0 <= i < k ==> goals[i].id != Some(goalId)
    requires goalId in store && store[goalId].checklist == goals[k].checklist
    ensures var r := NudgeResponseDone(goals, store, goalId, itemId, now);
      k < |r.goals| && goalId in r.store && r.goals[k].checklist == r.store[goalId].checklist
  {
    var k' := FindIndex(goals, (g: Goal) => g.id == Some(goalId));
    assert k' == k;
  }

  // ---------------------------------------------------------------------------
  // The goals page
  // ---------------------------------------------------------------------------

  datatype GoalFilter = AllGoals | OurGoals | MyGoals | PartnerGoals

  /** `goal.createdBy === person?.uid`: nobody created a goal for an absent person. */
  predicate CreatedBy(g: Goal, person: Option<string>)
  {
    person.Some? && g.createdBy == person.value
  }

  predicate FilterPasses(f: GoalFilter, g: Goal, user: Option<string>, partner: Option<string>)
  {
    match f
    case AllGoals => true
    case OurGoals => g.goalType == Us
    case MyGoals => g.goalType == Personal && CreatedBy(g, user)
    case PartnerGoals => g.goalType == Personal && CreatedBy(g, partner)
  }

  predicate Archived(g: Goal)
  {
    g.isArchived == Some(true)
  }

  predicate Shown(f: GoalFilter, showArchived: bool, user: Option<string>, partner: Option<string>, g: Goal)
  {
    FilterPasses(f, g, user, partner) && (showArchived || !Archived(g))
  }

  function FilteredGoals(goals: seq<Goal>, f: GoalFilter, showArchived: bool, user: Option<string>, partner: Option<string>): (r: seq<Goal>)
    ensures forall i :: 0 <= i < |goals| ==> (goals[i] in r <==> Shown(f, showArchived, user, partner, goals[i]))
    ensures forall i :: 0 <= i < |r| ==> r[i] in goals && Shown(f, showArchived, user, partner, r[i])
  {
    Filter(goals, (g: Goal) => Shown(f, showArchived, user, partner, g))
  }

  /** "All", archived included, is every goal in order; "all" without
      archived is the unarchived goals. */
  lemma AllFilterKeepsGoals(goals: seq<Goal>, user: Option<string>, partner: Option<string>)
    ensures FilteredGoals(goals, AllGoals, true, user, partner) == goals
    ensures forall i :: 0 <= i < |goals| ==> (goals[i] in FilteredGoals(goals, AllGoals, false, user, partner) <==> !Archived(goals[i]))
  {
    FilterAll(goals, (g: Goal) => Shown(AllGoals, true, user, partner, g));
  }

  datatype Ownership = Our | My | PartnersOwn

  function OwnershipOf(g: Goal, user: Option<string>): (o: Ownership)
    ensures o.Our? <==> g.goalType.Us?
    ensures o.My? <==> g.goalType.Personal? && CreatedBy(g, user)
    ensures o.PartnersOwn? <==> g.goalType.Personal? && !CreatedBy(g, user)
  {
    if g.goalType.Us? then Our
    else if CreatedBy(g, user) then My
    else PartnersOwn
  }

  /** The page's filters and its ownership labels agree: "our" and "my"
      select exactly those labels, and a partner's goal is labelled as the
      partner's whenever the two people differ. */
  lemma FiltersMatchOwnership(g: Goal, user: Option<string>, partner: Option<string>)
    ensures FilterPasses(OurGoals, g, user, partner) <==> OwnershipOf(g, user) == Our
    ensures FilterPasses(MyGoals, g, user, partner) <==> OwnershipOf(g, user) == My
    ensures FilterPasses(PartnerGoals, g, user, partner) && partner != user ==> OwnershipOf(g, user) == PartnersOwn
  {
  }

  // ---------------------------------------------------------------------------
  // The checklist component
  // ---------------------------------------------------------------------------

  /** A partner may not tick the items of the other's personal goal. */
  predicate Locked(g: Goal, user: Option<string>)
  {
    g.goalType == Personal && !CreatedBy(g, user)
  }

  predicate ChecklistDisabled(g: Goal, user: Option<string>, isArchived: Option<bool>)
  {
    Locked(g, user) || isArchived == Some(true)
  }

  /** Flips `completed` on the items carrying `id`. */
  function ToggleItems(items: seq<ChecklistItem>, id: string): (r: seq<ChecklistItem>)
    ensures |r| == |items|
    ensures forall i :: 0 <= i < |items| ==> r[i].id == items[i].id && r[i].text == items[i].text
    ensures forall i :: 0 <= i < |items| ==>
      r[i].completed == (if items[i].id == id then !items[i].completed else items[i].completed)
  {
    if items == [] then []
    else
      var head := if items[0].id == id then items[0].(completed := !items[0].completed) else items[0];
      [head] + ToggleItems(items[1..], id)
  }

  /** Toggling the same item twice restores the checklist. */
  lemma {:induction false} ToggleTwice(items: seq<ChecklistItem>, id: string)
    ensures ToggleItems(ToggleItems(items, id), id) == items
  {
    if items != [] {
      ToggleTwice(items[1..], id);
      assert ToggleItems(items, id)[1..] == ToggleItems(items[1..], id);
    }
  }

  /** `updateGoal(id, { checklist })`, stamping `updatedAt`. */
  function UpdateChecklist(store: GoalStore, goalId: string, items: seq<ChecklistItem>, now: int): (r: Result<GoalStore>)
    ensures r.Err? <==> goalId !in store
    ensures r.Err? ==> r.error == NoDocumentToUpdate
    ensures r.Ok? ==> r.value.Keys == store.Keys && r.value[goalId] == store[goalId].(checklist := Some(items), updatedAt := now)
                      && forall other :: other in store && other != goalId ==> r.value[other] == store[other]
  {
    if goalId !in store then Err(NoDocumentToUpdate)
    else Ok(store[goalId := store[goalId].(checklist := Some(items), updatedAt := now)])
  }

  /** `handleToggleChecklistItem`: a locked goal writes nothing; a goal
      without a stored checklist makes `goal.checklist.map` throw before any
      write; a goal without an id writes nothing; otherwise the goal's own
      checklist, toggled, is written. The write's rejection is not
      observed, so the store stays as it was. */
  function ToggleChecklistItem(store: GoalStore, g: Goal, user: Option<string>, item: ChecklistItem, now: int): (r: GoalStore)
    ensures Locked(g, user) || g.checklist.None? || !Present(g.id) || g.id.value !in store ==> r == store
    ensures !Locked(g, user) && g.checklist.Some? && Present(g.id) && g.id.value in store ==>
      r == store[g.id.value := store[g.id.value].(checklist := Some(ToggleItems(g.checklist.value, item.id)), updatedAt := now)]
  {
    if Locked(g, user) || g.checklist.None? || !Present(g.id) then store
    else match UpdateChecklist(store, g.id.value, ToggleItems(g.checklist.value, item.id), now)
      case Ok(s) => s
      case Err(_) => store
  }

  // ---------------------------------------------------------------------------
  // Progress
  // ---------------------------------------------------------------------------

  function CompletedCount(items: seq<ChecklistItem>): (n: nat)
    ensures n <= |items|
    ensures n == |items| <==> forall i :: 0 <= i < |items| ==> items[i].completed
    ensures n == 0 <==> forall i :: 0 <= i < |items| ==> !items[i].completed
  {
    Count(items, (item: ChecklistItem) => item.completed)
  }

  /** `calculateProgress`: the completed share in percent. */
  function Progress(items: seq<ChecklistItem>): (p: real)
    ensures 0.0 <= p <= 100.0
    ensures |items| == 0 ==> p == 0.0
    ensures |items| > 0 ==> p * (|items| as real) == (CompletedCount(items) as real) * 100.0
    ensures |items| > 0 && (forall i :: 0 <= i < |items| ==> items[i].completed) ==> p == 100.0
    ensures (forall i :: 0 <= i < |items| ==> !items[i].completed) ==> p == 0.0
  {
    if |items| == 0 then 0.0
    else
      PercentBounds(CompletedCount(items), |items|);
      (CompletedCount(items) as real) * 100.0 / (|items| as real)
  }

  /** `done / total * 100` lies between 0 and 100 and scales back to `done * 100`. */
  lemma PercentBounds(done: nat, total: nat)
    requires 0 < total && done <= total
    ensures var p := (done as real) * 100.0 / (total as real);
      && 0.0 <= p <= 100.0
      && p * (total as real) == (done as real) * 100.0
      && (done == total ==> p == 100.0)
      && (done == 0 ==> p == 0.0)
  {
    var n := total as real;
    var p := (done as real) * 100.0 / n;
    assert p * n == (done as real) * 100.0;
    assert (done as real) * 100.0 <= n * 100.0;
  }

  /** A nudge response about no particular item completes the whole goal. */
  lemma DoneForAllCompletes(items: seq<ChecklistItem>)
    requires |items| > 0
    ensures Progress(MarkItems(items, None, true)) == 100.0
  {
    var r := MarkItems(items, None, true);
    assert forall i :: 0 <= i < |r| ==> r[i].completed;
  }

  /** `Math.min(100, Math.max(0, percentage))`. */
  function Clamp(percentage: real): (r: real)
    ensures 0.0 <= r <= 100.0
    ensures 0.0 <= percentage <= 100.0 ==> r == percentage
    ensures percentage < 0.0 ==> r == 0.0
    ensures percentage > 100.0 ==> r == 100.0
  {
    if percentage < 0.0 then 0.0 else if percentage > 100.0 then 100.0 else percentage
  }

  lemma ClampIdempotent(percentage: real)
    ensures Clamp(Clamp(percentage)) == Clamp(percentage)
  {
  }

  /** The bar shows a card's progress unchanged. */
  lemma ProgressNeedsNoClamp(items: seq<ChecklistItem>)
    ensures Clamp(Progress(items)) == Progress(items)
  {
  }
}
