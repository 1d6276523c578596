/** Notifications: the service over the top-level `notifications`
    collection (src/firebase/notificationService.ts), the hook that exposes
    them (src/hooks/useNotifications.ts), the per-type destinations
    (src/config/notification-config.ts) and the list item
    (src/components/notifications/NotificationItem.tsx). */
module Notifications {
  import opened Wrappers
  import opened Seqs
  import opened Firestore

  /** The five notification types; `Other` stands for a stored type outside them. */
  datatype Kind = AdviceSummary | ChatKind | Milestone | NudgeKind | NudgeResponse | Other(name: string)

  /** A value of the free-form `data` record. */
  datatype Value = Str(s: string) | Null

  /** A stored notification document. */
  datatype NotificationDoc = NotificationDoc(
    uid: string,
    kind: Kind,
    title: string,
    summary: Option<string>,
    read: bool,
    timestamp: int,
    sessionId: Option<string>,
    data: map<string, Value>)

  /** A notification as the subscription delivers it. */
  datatype Notification = Notification(notificationId: string, doc: NotificationDoc)

  /** The collection, from document id to document. */
  type NotificationStore = map<string, NotificationDoc>

  /** `summary || null`: an absent or empty summary is stored as null. */
  function StoredSummary(summary: Option<string>): (r: Option<string>)
    ensures r.Some? <==> summary.Some? && summary.value != ""
    ensures r.Some? ==> r == summary
  {
    if summary.Some? && summary.value != "" then summary else None
  }

  /** `createNotification`; `newId` is the fresh document id, `now` the
      server time. */
  function Create(store: NotificationStore, newId: string, uid: string, kind: Kind, title: string,
                  summary: Option<string>, data: Option<map<string, Value>>, now: int): (r: NotificationStore)
    requires newId !in store
    ensures r.Keys == store.Keys + {newId}
    ensures forall id :: id in store ==> r[id] == store[id]
    ensures var n := r[newId];
      && n.uid == uid && n.kind == kind && n.title == title && !n.read
      && n.summary == StoredSummary(summary)
      && n.data == data.GetOr(map[])
      && n.sessionId.None?
  {
    store[newId := NotificationDoc(uid, kind, title, StoredSummary(summary), false, now, None, data.GetOr(map[]))]
  }

  // ---------------------------------------------------------------------------
  // Subscription
  // ---------------------------------------------------------------------------

  /** `ids` is an answer of the query "uid equals `uid`, newest first": each
      matching document exactly once, in non-increasing timestamp order. */
  ghost predicate IsSnapshot(store: NotificationStore, uid: string, ids: seq<string>)
  {
    && (forall i, j :: 0 <= i < j < |ids| ==> ids[i] != ids[j])
    && (forall id :: id in ids <==> id in store && store[id].uid == uid)
    && (forall i :: 0 <= i < |ids| ==> ids[i] in store)
    && (forall i, j :: 0 <= i < j < |ids| ==> store[ids[i]].timestamp >= store[ids[j]].timestamp)
  }

  /** Each document of the answer becomes a notification carrying its id. */
  function Deliver(store: NotificationStore, ids: seq<string>): (r: seq<Notification>)
    requires forall i :: 0 <= i < |ids| ==> ids[i] in store
    ensures |r| == |ids|
    ensures forall i :: 0 <= i < |ids| ==> r[i].notificationId == ids[i] && r[i].doc == store[ids[i]]
  {
    Snapshot(store, ids, (id: string, d: NotificationDoc) => Notification(id, d))
  }

  /** A delivered list holds only the user's notifications, every one of them,
      newest first. */
  lemma DeliveredSnapshot(store: NotificationStore, uid: string, ids: seq<string>)
    requires IsSnapshot(store, uid, ids)
    ensures forall i :: 0 <= i < |ids| ==> ids[i] in store
    ensures var r := Deliver(store, ids);
      && (forall i :: 0 <= i < |r| ==> r[i].doc.uid == uid)
      && (forall id :: id in store && store[id].uid == uid ==>
            exists i :: 0 <= i < |r| && r[i].notificationId == id)
      && (forall i, j :: 0 <= i < j < |r| ==> r[i].doc.timestamp >= r[j].doc.timestamp)
  {
    var r := Deliver(store, ids);
    forall id | id in store && store[id].uid == uid
      ensures exists i :: 0 <= i < |r| && r[i].notificationId == id
    {
      var i :| 0 <= i < |ids| && ids[i] == id;
      assert r[i].notificationId == id;
    }
  }

  // ---------------------------------------------------------------------------
  // Updates
  // ---------------------------------------------------------------------------

  /** `markNotificationAsRead`. */
  function MarkRead(store: NotificationStore, id: string): (r: Result<NotificationStore>)
    ensures r.Err? <==> id !in store
    ensures r.Err? ==> r.error == NoDocumentToUpdate
    ensures r.Ok? ==> r.value.Keys == store.Keys && r.value[id] == store[id].(read := true)
                      && forall other :: other in store && other != id ==> r.value[other] == store[other]
  {
    if id !in store then Err(NoDocumentToUpdate) else Ok(store[id := store[id].(read := true)])
  }

  /** `markAllNotificationsAsRead`: one batch over the user's unread documents. */
  function MarkAll(store: NotificationStore, uid: string): (r: NotificationStore)
    ensures r.Keys == store.Keys
    ensures forall id :: id in store && store[id].uid == uid ==> r[id] == store[id].(read := true)
    ensures forall id :: id in store && store[id].uid != uid ==> r[id] == store[id]
  {
    map id | id in store :: if store[id].uid == uid && !store[id].read then store[id].(read := true) else store[id]
  }

  /** `deleteNotification`; deleting a missing document succeeds. */
  function Delete(store: NotificationStore, id: string): (r: NotificationStore)
    ensures r.Keys == store.Keys - {id}
    ensures forall other :: other in r ==> r[other] == store[other]
  {
    store - {id}
  }

  /** Deleting one of the user's notifications removes exactly its entry
      from the user's delivered list, keeping the order of the rest, and
      the unread count does not grow. */
  lemma DeleteFromSnapshot(store: NotificationStore, uid: string, ids: seq<string>, k: nat)
    requires IsSnapshot(store, uid, ids) && k < |ids|
    ensures var after := Delete(store, ids[k]);
      var rest := RemoveAt(ids, k);
      && IsSnapshot(after, uid, rest)
      && Deliver(after, rest) == RemoveAt(Deliver(store, ids), k)
      && UnreadCount(Deliver(after, rest)) <= UnreadCount(Deliver(store, ids))
  {
    var after := Delete(store, ids[k]);
    var rest := RemoveAt(ids, k);
    SnapshotAfterDelete(store, uid, ids, k);
    var before := Deliver(store, ids);
    var now := Deliver(after, rest);
    assert |now| == |RemoveAt(before, k)|;
    assert forall i :: 0 <= i < |now| ==> now[i] == RemoveAt(before, k)[i];
    CountRemoveAt(before, k, (x: Notification) => !x.doc.read);
  }

  /** The answer without the deleted id answers the query after the delete. */
  lemma SnapshotAfterDelete(store: NotificationStore, uid: string, ids: seq<string>, k: nat)
    requires IsSnapshot(store, uid, ids) && k < |ids|
    ensures IsSnapshot(Delete(store, ids[k]), uid, RemoveAt(ids, k))
  {
    var id := ids[k];
    var after := Delete(store, id);
    var rest := RemoveAt(ids, k);
    assert forall i :: 0 <= i < |rest| ==> rest[i] != id;
    assert forall i :: 0 <= i < |rest| ==> rest[i] in after && after[rest[i]] == store[rest[i]];
    forall x | x in after && after[x].uid == uid ensures x in rest {
      var j :| 0 <= j < |ids| && ids[j] == x;
      if j < k { assert rest[j] == x; } else { assert rest[j - 1] == x; }
    }
    forall i, j | 0 <= i < j < |rest|
      ensures rest[i] != rest[j] && after[rest[i]].timestamp >= after[rest[j]].timestamp
    {
      var i' := if i < k then i else i + 1;
      var j' := if j < k then j else j + 1;
      assert rest[i] == ids[i'] && rest[j] == ids[j'] && i' < j';
    }
  }

  /** Deleting a document outside the user's delivered list (another user's,
      or a missing one) leaves that list as it was. */
  lemma DeleteOtherKeepsSnapshot(store: NotificationStore, uid: string, ids: seq<string>, id: string)
    requires IsSnapshot(store, uid, ids) && id !in ids
    ensures IsSnapshot(Delete(store, id), uid, ids)
    ensures Deliver(Delete(store, id), ids) == Deliver(store, ids)
  {
  }

  /** Dropping one element cannot raise a count. */
  lemma {:induction false} CountRemoveAt<T>(s: seq<T>, k: nat, p: T -> bool)
    requires k < |s|
    ensures Count(RemoveAt(s, k), p) <= Count(s, p)
  {
    var a, b := s[..k], s[k + 1..];
    var tail := [s[k]] + b;
    assert RemoveAt(s, k) == a + b;
    assert s == a + tail;
    assert tail[1..] == b;
    CountAppend(a, b, p);
    CountAppend(a, tail, p);
  }

  // ---------------------------------------------------------------------------
  // useNotifications
  // ---------------------------------------------------------------------------

  datatype Hook = Hook(notifications: seq<Notification>, loading: bool, error: Option<string>, subscribedTo: Option<string>)

  const InitialHook := Hook([], true, None, None)

  const NotAuthenticated := "User not authenticated."

  /** `!user?.uid`. */
  predicate SignedOut(uid: Option<string>)
  {
    uid.None? || uid.value == ""
  }

  /** The effect on `[user?.uid]`: no user empties the list and subscribes to
      nothing; a user starts loading their notifications. */
  function OnUser(h: Hook, uid: Option<string>): (r: Hook)
    ensures SignedOut(uid) ==> r.notifications == [] && !r.loading && r.subscribedTo.None?
    ensures !SignedOut(uid) ==> r.loading && r.subscribedTo == uid && r.notifications == h.notifications
    ensures r.error == h.error
  {
    if SignedOut(uid) then h.(notifications := [], loading := false, subscribedTo := None)
    else h.(loading := true, subscribedTo := uid)
  }

  /** The subscription callback: the list replaces the old one and clears the error. */
  function OnSnapshot(h: Hook, list: seq<Notification>): (r: Hook)
    ensures r.notifications == list && !r.loading && r.error.None?
    ensures r.subscribedTo == h.subscribedTo
  {
    h.(notifications := list, loading := false, error := None)
  }

  function UnreadCount(list: seq<Notification>): (n: nat)
    ensures n <= |list|
    ensures n == 0 <==> forall i :: 0 <= i < |list| ==> list[i].doc.read
  {
    Count(list, (x: Notification) => !x.doc.read)
  }

  /** A hook action's result: hook state and store. */
  datatype Step = Step(hook: Hook, store: NotificationStore)

  function MarkAsRead(h: Hook, uid: Option<string>, store: NotificationStore, id: string): (r: Step)
    ensures SignedOut(uid) ==> r == Step(h.(error := Some(NotAuthenticated)), store)
    ensures !SignedOut(uid) ==> (match MarkRead(store, id)
                                 case Ok(s) => r == Step(h, s)
                                 case Err(e) => r == Step(h.(error := Some(e)), store))
  {
    if SignedOut(uid) then Step(h.(error := Some(NotAuthenticated)), store)
    else match MarkRead(store, id)
      case Ok(s) => Step(h, s)
      case Err(e) => Step(h.(error := Some(e)), store)
  }

  function MarkAllAsRead(h: Hook, uid: Option<string>, store: NotificationStore): (r: Step)
    ensures SignedOut(uid) ==> r == Step(h.(error := Some(NotAuthenticated)), store)
    ensures !SignedOut(uid) ==> r == Step(h, MarkAll(store, uid.value))
  {
    if SignedOut(uid) then Step(h.(error := Some(NotAuthenticated)), store)
    else Step(h, MarkAll(store, uid.value))
  }

  function DeleteNotification(h: Hook, uid: Option<string>, store: NotificationStore, id: string): (r: Step)
    ensures SignedOut(uid) ==> r == Step(h.(error := Some(NotAuthenticated)), store)
    ensures !SignedOut(uid) ==> r == Step(h, Delete(store, id))
  {
    if SignedOut(uid) then Step(h.(error := Some(NotAuthenticated)), store)
    else Step(h, Delete(store, id))
  }

  /** After "mark all as read" the user's next delivered list has no unread
      notification, and no other user's document changed. */
  lemma MarkAllClearsUnread(store: NotificationStore, uid: string, ids: seq<string>)
    requires IsSnapshot(MarkAll(store, uid), uid, ids)
    ensures forall i :: 0 <= i < |ids| ==> ids[i] in MarkAll(store, uid)
    ensures UnreadCount(Deliver(MarkAll(store, uid), ids)) == 0
    ensures forall id :: id in store && store[id].uid != uid ==> MarkAll(store, uid)[id] == store[id]
  {
    var s := MarkAll(store, uid);
    var r := Deliver(s, ids);
    forall i | 0 <= i < |r|
      ensures r[i].doc.read
    {
      assert ids[i] in s && s[ids[i]].uid == uid;
    }
  }

  // ---------------------------------------------------------------------------
  // Destinations and the list item
  // ---------------------------------------------------------------------------

  /** The configured destination of a notification, `None` for a type
      without configuration. */
  function PathFor(n: Notification): (r: Option<string>)
    ensures r.None? <==> n.doc.kind.Other?
    ensures n.doc.kind == ChatKind ==> r == Some("/chat")
    ensures n.doc.kind == Milestone ==> r == Some("/profile")
    ensures n.doc.kind == NudgeKind || n.doc.kind == NudgeResponse ==> r == Some("/goals")
    ensures n.doc.kind == AdviceSummary ==> r == Some("/quackzulting/" + n.doc.sessionId.GetOr(""))
  {
    match n.doc.kind
    case ChatKind => Some("/chat")
    case AdviceSummary => Some("/quackzulting/" + n.doc.sessionId.GetOr(""))
    case Milestone => Some("/profile")
    case NudgeKind => Some("/goals")
    case NudgeResponse => Some("/goals")
    case Other(_) => None
  }

  /** The item's link: the configured path, or "#" without configuration. */
  function ItemPath(n: Notification): (path: string)
    ensures n.doc.kind.Other? <==> path == "#"
    ensures |path| >= 1
  {
    match PathFor(n)
    case Some(p) => p
    case None => "#"
  }

  /** Clicking an item: an unread one is marked read first, then the app
      always navigates to the item's path. */
  datatype Click = Click(step: Step, navigateTo: string)

  function ClickItem(h: Hook, uid: Option<string>, store: NotificationStore, n: Notification): (r: Click)
    ensures r.navigateTo == ItemPath(n)
    ensures n.doc.read ==> r.step == Step(h, store)
    ensures !n.doc.read ==> r.step == MarkAsRead(h, uid, store, n.notificationId)
  {
    var step := if !n.doc.read then MarkAsRead(h, uid, store, n.notificationId) else Step(h, store);
    Click(step, ItemPath(n))
  }

  /** Clicking an unread, stored item while signed in leaves it read and
      touches no other document. */
  lemma ClickReadsItem(h: Hook, uid: Option<string>, store: NotificationStore, n: Notification)
    requires !SignedOut(uid) && !n.doc.read && n.notificationId in store
    ensures var s := ClickItem(h, uid, store, n).step.store;
      && s.Keys == store.Keys && s[n.notificationId].read
      && forall other :: other in store && other != n.notificationId ==> s[other] == store[other]
  {
  }
}
