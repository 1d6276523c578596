/** Consulting Dr. Kwuk (src/firebase/quackzultingService.ts): sessions
    under `quackzulting/{uid}/sessions`, their messages, and the advice
    summary sent to the partner. */
module Quackzulting {
  import opened Wrappers
  import opened Seqs
  import opened Firestore
  import N = Notifications
  import Rules = SecurityRules

  datatype Status = Active | Archived

  datatype SessionDoc = SessionDoc(coupleId: string, createdAt: int, status: Status)

  /** `createSession`: a new active session of the couple. */
  function CreateSession(sessions: map<string, SessionDoc>, newId: string, coupleId: string, now: int): (r: map<string, SessionDoc>)
    requires newId !in sessions
    ensures r.Keys == sessions.Keys + {newId}
    ensures forall id :: id in sessions ==> r[id] == sessions[id]
    ensures r[newId].status == Active && r[newId].coupleId == coupleId && r[newId].createdAt == now
  {
    sessions[newId := SessionDoc(coupleId, now, Active)]
  }

  /** The session just created under `quackzulting/{owner}/sessions` is
      stored, and the access rules let exactly its owner read or write it. */
  lemma CreatedSessionPrivate(sessions: map<string, SessionDoc>, newId: string, coupleId: string, now: int,
                              owner: string, asker: Option<string>, op: Rules.Op,
                              stored: Option<Rules.Resource>, members: Rules.Members)
    requires newId !in sessions
    ensures newId in CreateSession(sessions, newId, coupleId, now)
    ensures Rules.AnyGrants(Rules.Rules, Rules.Request(asker, op, Rules.SessionDoc(owner, newId)), stored, members)
            <==> asker == Some(owner)
  {
    Rules.OwnerOnly(Rules.Request(asker, op, Rules.SessionDoc(owner, newId)), stored, members);
  }

  datatype Role = User | DrKwuk

  /** A stored session message; `msgId` is a stale id field the data may carry. */
  datatype MessageDoc = MessageDoc(role: Role, content: string, timestamp: int, msgId: Option<string>)

  datatype Message = Message(msgId: string, doc: MessageDoc)

  function Timestamp(m: Message): int
  {
    m.doc.timestamp
  }

  /** `addMessage`: the user's message at the first clock reading, then
      the reply one millisecond after the second reading. The reply text
      comes from the advice service, which is a parameter here. */
  function AddMessage(messages: map<string, MessageDoc>, questionId: string, replyId: string,
                      content: string, reply: string, askedAt: int, repliedAt: int): (r: map<string, MessageDoc>)
    requires questionId !in messages && replyId !in messages && questionId != replyId
    ensures r.Keys == messages.Keys + {questionId, replyId}
    ensures forall id :: id in messages ==> r[id] == messages[id]
    ensures r[questionId] == MessageDoc(User, content, askedAt, None)
    ensures r[replyId] == MessageDoc(DrKwuk, reply, repliedAt + 1, None)
  {
    messages[questionId := MessageDoc(User, content, askedAt, None)][replyId := MessageDoc(DrKwuk, reply, repliedAt + 1, None)]
  }

  function Delivered(messages: map<string, MessageDoc>, ids: seq<string>): (r: seq<Message>)
    requires forall i :: 0 <= i < |ids| ==> ids[i] in messages
    ensures |r| == |ids|
    ensures forall i :: 0 <= i < |ids| ==> r[i] == Message(ids[i], messages[ids[i]])
  {
    Snapshot(messages, ids, (id: string, d: MessageDoc) => Message(id, d))
  }

  /** `subscribeToSession`'s callback: the messages by timestamp, each under
      its document id. */
  function Subscribe(messages: map<string, MessageDoc>, ids: seq<string>): (r: seq<Message>)
    requires Enumerates(messages, ids)
    ensures SortedBy(r, Timestamp)
    ensures multiset(r) == multiset(Delivered(messages, ids))
  {
    SortBy(Delivered(messages, ids), Timestamp)
  }

  /** With a clock that does not run backwards, the reply is listed after
      the question it answers. */
  lemma ReplyFollowsQuestion(messages: map<string, MessageDoc>, questionId: string, replyId: string,
                             content: string, reply: string, askedAt: int, repliedAt: int, ids: seq<string>)
    requires questionId !in messages && replyId !in messages && questionId != replyId
    requires askedAt <= repliedAt
    requires Enumerates(AddMessage(messages, questionId, replyId, content, reply, askedAt, repliedAt), ids)
    ensures var all := AddMessage(messages, questionId, replyId, content, reply, askedAt, repliedAt);
      var r := Subscribe(all, ids);
      exists q, a :: 0 <= q < a < |r| && r[q] == Message(questionId, all[questionId]) && r[a] == Message(replyId, all[replyId])
  {
    var all := AddMessage(messages, questionId, replyId, content, reply, askedAt, repliedAt);
    var d := Delivered(all, ids);
    var r := Subscribe(all, ids);
    var question := Message(questionId, all[questionId]);
    var answer := Message(replyId, all[replyId]);
    var kq :| 0 <= kq < |ids| && ids[kq] == questionId;
    var ka :| 0 <= ka < |ids| && ids[ka] == replyId;
    assert d[kq] == question && d[ka] == answer;
    SameElements(r, d);
    var q :| 0 <= q < |r| && r[q] == question;
    var a :| 0 <= a < |r| && r[a] == answer;
    SortedBefore(r, Timestamp, q, a);
  }

  // ---------------------------------------------------------------------------
  // The advice summary
  // ---------------------------------------------------------------------------

  const SummaryTitle := "Dr. Kwuk has advice for you \U{1F986}"

  /** A document of `notifications/{partnerUid}/items`. */
  datatype SummaryItem = SummaryItem(kind: N.Kind, title: string, summary: string, suggestedActions: seq<string>,
                                     moodEmoji: string, hintLevel: int, timestamp: int, read: bool)

  /** The notification documents: the top-level collection the
      notification list reads, and the per-user `items` collections this
      service writes. */
  datatype NotificationTree = NotificationTree(top: N.NotificationStore, items: map<string, map<string, SummaryItem>>)

  function Inbox(tree: NotificationTree, uid: string): map<string, SummaryItem>
  {
    if uid in tree.items then tree.items[uid] else map[]
  }

  /** `sendSummaryToPartner`: one unread advice summary in the partner's
      `items` collection; the top-level collection does not change, so the
      partner's notification list never shows it. */
  function SendSummary(tree: NotificationTree, partnerUid: string, newId: string, summary: string,
                       suggestedActions: seq<string>, moodEmoji: string, hintLevel: int, now: int): (r: NotificationTree)
    requires newId !in Inbox(tree, partnerUid)
    ensures r.top == tree.top
    ensures Inbox(r, partnerUid).Keys == Inbox(tree, partnerUid).Keys + {newId}
    ensures forall id :: id in Inbox(tree, partnerUid) ==> Inbox(r, partnerUid)[id] == Inbox(tree, partnerUid)[id]
    ensures Inbox(r, partnerUid)[newId] == SummaryItem(N.AdviceSummary, SummaryTitle, summary, suggestedActions, moodEmoji, hintLevel, now, false)
    ensures forall uid :: uid != partnerUid ==> Inbox(r, uid) == Inbox(tree, uid)
  {
    var item := SummaryItem(N.AdviceSummary, SummaryTitle, summary, suggestedActions, moodEmoji, hintLevel, now, false);
    tree.(items := tree.items[partnerUid := Inbox(tree, partnerUid)[newId := item]])
  }

  /** The summary never reaches the partner's notification list: every
      answer of the partner's notification query delivers the same list,
      with the same unread count, as before the send. */
  lemma SummaryNotListed(tree: NotificationTree, partnerUid: string, newId: string, summary: string,
                         suggestedActions: seq<string>, moodEmoji: string, hintLevel: int, now: int, ids: seq<string>)
    requires newId !in Inbox(tree, partnerUid)
    requires N.IsSnapshot(tree.top, partnerUid, ids)
    ensures var r := SendSummary(tree, partnerUid, newId, summary, suggestedActions, moodEmoji, hintLevel, now);
      && N.IsSnapshot(r.top, partnerUid, ids)
      && N.Deliver(r.top, ids) == N.Deliver(tree.top, ids)
      && N.UnreadCount(N.Deliver(r.top, ids)) == N.UnreadCount(N.Deliver(tree.top, ids))
  {
  }
}
