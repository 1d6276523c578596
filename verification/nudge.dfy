/** Nudging a partner about a goal (src/components/goals/Nudge.tsx) and
    answering a nudge
    (src/components/notifications/NudgeResponseModal.tsx). */
module Nudges {
  import opened Wrappers
  import opened Seqs
  import opened Goals
  import N = Notifications

  // ---------------------------------------------------------------------------
  // Choosing what to nudge about
  // ---------------------------------------------------------------------------

  /** The nudge dialog: the typed message, the chosen item ids and the
      "select all" switch. */
  datatype Dialog = Dialog(message: string, selected: seq<string>, selectAll: bool, open: bool)

  /** Ticking an item: a chosen id is dropped, another one is appended. */
  function ToggleSelected(selected: seq<string>, itemId: string): (r: seq<string>)
    ensures itemId in selected ==> itemId !in r && forall x :: x in r <==> x in selected && x != itemId
    ensures itemId !in selected ==> r == selected + [itemId]
  {
    if itemId in selected then Filter(selected, (x: string) => x != itemId) else selected + [itemId]
  }

  /** Ticking the same item twice gives back the same chosen ids; when the
      id was not chosen, the very same list. */
  lemma ToggleSelectedTwice(selected: seq<string>, itemId: string)
    ensures forall x :: x in ToggleSelected(ToggleSelected(selected, itemId), itemId) <==> x in selected
    ensures itemId !in selected ==> ToggleSelected(ToggleSelected(selected, itemId), itemId) == selected
  {
    if itemId !in selected {
      FilterAppend(selected, [itemId], (x: string) => x != itemId);
      FilterAll(selected, (x: string) => x != itemId);
      assert Filter([itemId], (x: string) => x != itemId) == [];
    }
  }

  function Ids(items: seq<ChecklistItem>): (r: seq<string>)
    ensures |r| == |items| && forall i :: 0 <= i < |items| ==> r[i] == items[i].id
  {
    Map(items, (item: ChecklistItem) => item.id)
  }

  /** The "select all" switch: switching on chooses every item, switching
      off chooses none. */
  function SelectAll(d: Dialog, checklist: seq<ChecklistItem>): (r: Dialog)
    ensures r.selectAll == !d.selectAll && r.message == d.message && r.open == d.open
    ensures d.selectAll ==> r.selected == []
    ensures !d.selectAll ==> r.selected == Ids(checklist)
  {
    d.(selected := if d.selectAll then [] else Ids(checklist), selectAll := !d.selectAll)
  }

  /** The items a nudge is about: all of them under "select all", else the
      chosen ones in checklist order. */
  function ItemsToNudge(d: Dialog, checklist: seq<ChecklistItem>): (r: seq<ChecklistItem>)
    ensures d.selectAll ==> r == checklist
    ensures !d.selectAll ==> forall i :: 0 <= i < |checklist| ==> (checklist[i] in r <==> checklist[i].id in d.selected)
    ensures forall i :: 0 <= i < |r| ==> r[i] in checklist
  {
    if d.selectAll then checklist
    else if |d.selected| > 0 then Filter(checklist, (item: ChecklistItem) => item.id in d.selected)
    else []
  }

  // ---------------------------------------------------------------------------
  // Sending
  // ---------------------------------------------------------------------------

  /** The message about one item when none was typed. */
  function ItemMessage(text: string): string
  {
    "Just checking in on \"" + text + "\"! \U{2764}\U{FE0F}"
  }

  /** The message about the goal as a whole when none was typed. */
  const GoalMessage := "Just checking in on this goal! \U{2764}\U{FE0F}"

  /** One notification to send: the item it is about and its message. */
  datatype Request = Request(itemId: Option<string>, message: string)

  /** The notifications a send produces: one per item, or a single one
      about the goal when there are no items. A typed message replaces the
      default texts. */
  function Requests(items: seq<ChecklistItem>, typed: string): (r: seq<Request>)
    ensures |items| == 0 ==> r == [Request(None, if typed != "" then typed else GoalMessage)]
    ensures |items| > 0 ==> |r| == |items| && forall i :: 0 <= i < |items| ==>
      r[i] == Request(Some(items[i].id), if typed != "" then typed else ItemMessage(items[i].text))
  {
    if |items| == 0 then [Request(None, if typed != "" then typed else GoalMessage)]
    else seq(|items|, i requires 0 <= i < |items| =>
               Request(Some(items[i].id), if typed != "" then typed else ItemMessage(items[i].text)))
  }

  /** The i-th new notification is the nudge for the i-th request. */
  ghost predicate NudgeAt(r: N.NotificationStore, newIds: seq<string>, reqs: seq<Request>, i: nat,
                          recipient: string, sender: string, goalId: string, goalTitle: string)
    requires i < |reqs| && i < |newIds|
  {
    newIds[i] in r && var doc := r[newIds[i]];
      && doc.uid == recipient && doc.kind == N.NudgeKind && !doc.read
      && doc.title == NudgeTitle(sender, goalTitle)
      && doc.data == NudgeData(goalId, reqs[i].itemId, reqs[i].message, goalTitle)
  }

  /** The first `n` new notifications are the nudges for the first `n` requests. */
  ghost predicate Sent(r: N.NotificationStore, newIds: seq<string>, reqs: seq<Request>, n: nat,
                       recipient: string, sender: string, goalId: string, goalTitle: string)
    requires n <= |reqs| && n <= |newIds|
  {
    forall i: nat :: i < n ==> NudgeAt(r, newIds, reqs, i, recipient, sender, goalId, goalTitle)
  }

  /** Sending the k-th request keeps the first k nudges and adds the k-th. */
  lemma SentStep(r: N.NotificationStore, next: N.NotificationStore, newIds: seq<string>, reqs: seq<Request>, k: nat,
                 recipient: string, sender: string, goalId: string, goalTitle: string, now: int)
    requires k < |reqs| && k < |newIds| && newIds[k] !in r
    requires Sent(r, newIds, reqs, k, recipient, sender, goalId, goalTitle)
    requires next == SendNudge(r, newIds[k], recipient, sender, goalId, goalTitle, reqs[k].itemId, reqs[k].message, now)
    ensures Sent(next, newIds, reqs, k + 1, recipient, sender, goalId, goalTitle)
  {
    forall i: nat | i < k + 1
      ensures NudgeAt(next, newIds, reqs, i, recipient, sender, goalId, goalTitle)
    {
      if i < k {
        assert NudgeAt(r, newIds, reqs, i, recipient, sender, goalId, goalTitle);
      }
    }
  }

  /** The next id is not yet in a store holding the earlier new ids. */
  lemma FreshStep(store: N.NotificationStore, r: N.NotificationStore, newIds: seq<string>, k: nat)
    requires k < |newIds| && newIds[k] !in store
    requires forall i, j :: 0 <= i < j < |newIds| ==> newIds[i] != newIds[j]
    requires r.Keys == store.Keys + set i | 0 <= i < k :: newIds[i]
    ensures newIds[k] !in r
  {
    assert forall i :: 0 <= i < k ==> newIds[i] != newIds[k];
  }

  /** Adding the next id extends the set of sent ids by one. */
  lemma KeysStep(store: N.NotificationStore, r: N.NotificationStore, next: N.NotificationStore, newIds: seq<string>, k: nat)
    requires k < |newIds|
    requires r.Keys == store.Keys + set i | 0 <= i < k :: newIds[i]
    requires next.Keys == r.Keys + {newIds[k]}
    ensures next.Keys == store.Keys + set i | 0 <= i < k + 1 :: newIds[i]
  {
    assert (set i | 0 <= i < k + 1 :: newIds[i]) == (set i | 0 <= i < k :: newIds[i]) + {newIds[k]};
  }

  /** A send that keeps the earlier documents keeps the original store's. */
  lemma KeptStep(store: N.NotificationStore, prev: N.NotificationStore, next: N.NotificationStore)
    requires forall id :: id in store ==> id in prev && prev[id] == store[id]
    requires prev.Keys <= next.Keys
    requires forall id :: id in prev ==> next[id] == prev[id]
    ensures forall id :: id in store ==> id in next && next[id] == store[id]
  {
  }

  /** Sends the requests one after the other; `newIds` are the ids the
      store assigns. */
  method SendAll(store: N.NotificationStore, newIds: seq<string>, reqs: seq<Request>, recipient: string,
                 sender: string, goalId: string, goalTitle: string, now: int) returns (r: N.NotificationStore)
    requires |newIds| >= |reqs|
    requires forall i :: 0 <= i < |newIds| ==> newIds[i] !in store
    requires forall i, j :: 0 <= i < j < |newIds| ==> newIds[i] != newIds[j]
    ensures r.Keys == store.Keys + set i | 0 <= i < |reqs| :: newIds[i]
    ensures forall id :: id in store ==> r[id] == store[id]
    ensures Sent(r, newIds, reqs, |reqs|, recipient, sender, goalId, goalTitle)
  {
    r := store;
    var k := 0;
    while k < |reqs|
      invariant 0 <= k <= |reqs|
      invariant r.Keys == store.Keys + set i | 0 <= i < k :: newIds[i]
      invariant forall id :: id in store ==> id in r && r[id] == store[id]
      invariant Sent(r, newIds, reqs, k, recipient, sender, goalId, goalTitle)
    {
      FreshStep(store, r, newIds, k);
      var next := SendNudge(r, newIds[k], recipient, sender, goalId, goalTitle, reqs[k].itemId, reqs[k].message, now);
      SentStep(r, next, newIds, reqs, k, recipient, sender, goalId, goalTitle, now);
      KeysStep(store, r, next, newIds, k);
      KeptStep(store, r, next);
      r := next;
      k := k + 1;
    }
  }

  /** `handleSendNudge`: without a user or partner nothing happens;
      otherwise the nudges go to the partner and the dialog closes empty. */
  method SendNudges(d: Dialog, goal: Goal, checklist: seq<ChecklistItem>, user: Option<(string, string)>, partner: Option<string>,
                    store: N.NotificationStore, newIds: seq<string>, now: int) returns (d': Dialog, r: N.NotificationStore)
    requires goal.id.Some?
    requires |newIds| >= |checklist| + 1
    requires forall i :: 0 <= i < |newIds| ==> newIds[i] !in store
    requires forall i, j :: 0 <= i < j < |newIds| ==> newIds[i] != newIds[j]
    ensures user.None? || partner.None? ==> d' == d && r == store
    ensures user.Some? && partner.Some? ==>
      var reqs := Requests(ItemsToNudge(d, checklist), d.message);
      && d' == Dialog("", [], false, false)
      && r.Keys == store.Keys + (set i | 0 <= i < |reqs| :: newIds[i])
      && (forall id :: id in store ==> r[id] == store[id])
      && Sent(r, newIds, reqs, |reqs|, partner.value, user.value.1, goal.id.value, goal.title)
  {
    if user.None? || partner.None? {
      return d, store;
    }
    var reqs := Requests(ItemsToNudge(d, checklist), d.message);
    r := SendAll(store, newIds, reqs, partner.value, user.value.1, goal.id.value, goal.title, now);
    d' := Dialog("", [], false, false);
  }

  /** Nudging with nothing chosen sends exactly one nudge, about the goal
      as a whole. */
  lemma NothingChosenNudgesGoal(d: Dialog, checklist: seq<ChecklistItem>)
    requires !d.selectAll && d.selected == []
    ensures Requests(ItemsToNudge(d, checklist), d.message) == [Request(None, if d.message != "" then d.message else GoalMessage)]
  {
  }

  // ---------------------------------------------------------------------------
  // Answering a nudge
  // ---------------------------------------------------------------------------

  const ResponseOptions := ["On it!", "Almost done!", "Need help", "Done!"]
  const Done := "Done!"

  /** A data value as a template literal renders it. */
  function Interpolated(v: Option<N.Value>): string
  {
    if v.None? then "undefined" else if v.value.Null? then "null" else v.value.s
  }

  function Field(data: map<string, N.Value>, key: string): Option<N.Value>
  {
    if key in data then Some(data[key]) else None
  }

  /** A data value used as a condition: only a non-empty string counts. */
  function Truthy(v: Option<N.Value>): Option<string>
  {
    if v.Some? && v.value.Str? && v.value.s != "" then Some(v.value.s) else None
  }

  datatype Response = Response(notifications: N.NotificationStore, goals: GoalsStep, closed: bool)

  /** `handleResponse`: without a user or partner nothing happens;
      otherwise the response always goes back to the partner, and "Done!"
      about a known goal also completes the nudged item, or every item
      when the nudge named none. */
  function Respond(user: Option<(string, string)>, partner: Option<string>, n: N.Notification, response: string,
                   notifications: N.NotificationStore, newId: string, goals: seq<Goal>, goalStore: GoalStore, now: int): (r: Response)
    requires newId !in notifications
    ensures user.None? || partner.None? ==> r == Response(notifications, GoalsStep(goals, goalStore), false)
    ensures user.Some? && partner.Some? ==>
      && r.closed
      && r.notifications == SendNudgeResponse(notifications, newId, partner.value, user.value.1,
                                              Interpolated(Field(n.doc.data, "goalTitle")), response, now)
    ensures user.Some? && partner.Some? && (response != Done || Truthy(Field(n.doc.data, "goalId")).None?) ==>
      r.goals == GoalsStep(goals, goalStore)
    ensures user.Some? && partner.Some? && response == Done && Truthy(Field(n.doc.data, "goalId")).Some? ==>
      r.goals == NudgeResponseDone(goals, goalStore, Truthy(Field(n.doc.data, "goalId")).value,
                                   Truthy(Field(n.doc.data, "checklistItemId")), now)
  {
    if user.None? || partner.None? then Response(notifications, GoalsStep(goals, goalStore), false)
    else
      var data := n.doc.data;
      var sent := SendNudgeResponse(notifications, newId, partner.value, user.value.1,
                                    Interpolated(Field(data, "goalTitle")), response, now);
      var goalId := Truthy(Field(data, "goalId"));
      var step := if response == Done && goalId.Some?
                  then NudgeResponseDone(goals, goalStore, goalId.value, Truthy(Field(data, "checklistItemId")), now)
                  else GoalsStep(goals, goalStore);
      Response(sent, step, true)
  }

  /** Answering "Done!" to a nudge this app sent about one item completes
      exactly that item in the stored goal. */
  lemma DoneAnswersTheNudge(user: (string, string), partner: string, notifications: N.NotificationStore, nudgeId: string,
                            newId: string, goals: seq<Goal>, goalStore: GoalStore, now: int,
                            goalId: string, itemId: string, message: string, goalTitle: string, k: nat)
    requires newId !in notifications
    requires nudgeId in notifications && notifications[nudgeId].data == NudgeData(goalId, Some(itemId), message, goalTitle)
    requires goalId != "" && itemId != ""
    requires k < |goals| && goals[k].id == Some(goalId) && goals[k].checklist.Some?
    requires forall i :: 0 <= i < k ==> goals[i].id != Some(goalId)
    requires goalId in goalStore
    ensures var r := Respond(Some(user), Some(partner), N.Notification(nudgeId, notifications[nudgeId]), Done,
                             notifications, newId, goals, goalStore, now);
      && goalId in r.goals.store
      && r.goals.store[goalId].checklist == Some(MarkItems(goalStore[goalId].checklist.GetOr([]), Some(itemId), true))
  {
    NudgeFields(goalId, itemId, message, goalTitle);
    DoneStored(goals, goalStore, goalId, itemId, now, k);
  }

  /** The goal and item a nudge's data names, read back as conditions. */
  lemma NudgeFields(goalId: string, itemId: string, message: string, goalTitle: string)
    requires goalId != "" && itemId != ""
    ensures Truthy(Field(NudgeData(goalId, Some(itemId), message, goalTitle), "goalId")) == Some(goalId)
    ensures Truthy(Field(NudgeData(goalId, Some(itemId), message, goalTitle), "checklistItemId")) == Some(itemId)
  {
  }

  /** Completing an item of a listed goal stores the marked checklist. */
  lemma DoneStored(goals: seq<Goal>, goalStore: GoalStore, goalId: string, itemId: string, now: int, k: nat)
    requires k < |goals| && goals[k].id == Some(goalId) && goals[k].checklist.Some?
    requires forall i :: 0 <= i < k ==> goals[i].id != Some(goalId)
    requires goalId in goalStore
    ensures var s := NudgeResponseDone(goals, goalStore, goalId, Some(itemId), now).store;
      && goalId in s
      && s[goalId].checklist == Some(MarkItems(goalStore[goalId].checklist.GetOr([]), Some(itemId), true))
  {
    var k' := FindIndex(goals, (g: Goal) => g.id == Some(goalId));
    assert k' == k;
  }
}
