/** The couple's chat: the message service (src/firebase/chatService.ts)
    and the message input (src/components/ChatInput.tsx). */
module Chat {
  import opened Wrappers
  import opened Seqs
  import opened Text
  import opened Firestore

  datatype Mode = Normal | Consulting

  /** A stored message of `chats/{coupleId}/messages`; `msgId` is a stale
      id field some documents may carry in their data. */
  datatype ChatDoc = ChatDoc(
    coupleId: string,
    senderUid: string,
    senderName: string,
    senderAvatar: Option<string>,
    content: string,
    mode: Mode,
    timestamp: int,
    edited: Option<bool>,
    editedAt: Option<int>,
    msgId: Option<string>)

  /** One couple's messages, from document id to document. */
  type Thread = map<string, ChatDoc>

  /** A delivered message: the document under its document id. */
  datatype ChatMessage = ChatMessage(msgId: string, doc: ChatDoc)

  function Timestamp(m: ChatMessage): int
  {
    m.doc.timestamp
  }

  /** `{ ...doc.data(), msgId: doc.id }`: the document id wins over any id in the data. */
  function Delivered(thread: Thread, ids: seq<string>): (r: seq<ChatMessage>)
    requires forall i :: 0 <= i < |ids| ==> ids[i] in thread
    ensures |r| == |ids|
    ensures forall i :: 0 <= i < |ids| ==> r[i] == ChatMessage(ids[i], thread[ids[i]])
  {
    Snapshot(thread, ids, (id: string, d: ChatDoc) => ChatMessage(id, d))
  }

  /** `subscribeToChat`'s callback: the snapshot's messages ordered by timestamp. */
  function Subscribe(thread: Thread, ids: seq<string>): (r: seq<ChatMessage>)
    requires Enumerates(thread, ids)
    ensures SortedBy(r, Timestamp)
    ensures multiset(r) == multiset(Delivered(thread, ids))
  {
    SortBy(Delivered(thread, ids), Timestamp)
  }

  /** The callback shows every message of the thread exactly as stored,
      each under its document id, and nothing else. */
  lemma SubscribeShowsThread(thread: Thread, ids: seq<string>)
    requires Enumerates(thread, ids)
    ensures var r := Subscribe(thread, ids);
      && |r| == |ids|
      && (forall i :: 0 <= i < |r| ==> r[i].msgId in thread && r[i].doc == thread[r[i].msgId])
      && (forall id :: id in thread ==> exists i :: 0 <= i < |r| && r[i] == ChatMessage(id, thread[id]))
  {
    var r := Subscribe(thread, ids);
    ShownAsStored(thread, ids, r);
    ShowsEvery(thread, ids, r);
  }

  /** Any reordering of the delivered messages shows each document under its own id. */
  lemma ShownAsStored(thread: Thread, ids: seq<string>, r: seq<ChatMessage>)
    requires forall i :: 0 <= i < |ids| ==> ids[i] in thread
    requires multiset(r) == multiset(Delivered(thread, ids))
    ensures |r| == |ids|
    ensures forall i :: 0 <= i < |r| ==> r[i].msgId in thread && r[i].doc == thread[r[i].msgId]
  {
    var d := Delivered(thread, ids);
    SameElements(r, d);
    forall i | 0 <= i < |r|
      ensures r[i].msgId in thread && r[i].doc == thread[r[i].msgId]
    {
      var k :| 0 <= k < |d| && d[k] == r[i];
    }
  }

  /** Any reordering of the delivered messages shows every document of the thread. */
  lemma ShowsEvery(thread: Thread, ids: seq<string>, r: seq<ChatMessage>)
    requires forall id :: id in ids <==> id in thread
    requires multiset(r) == multiset(Delivered(thread, ids))
    ensures forall id :: id in thread ==> exists i :: 0 <= i < |r| && r[i] == ChatMessage(id, thread[id])
  {
    var d := Delivered(thread, ids);
    SameElements(r, d);
    forall id | id in thread
      ensures exists i :: 0 <= i < |r| && r[i] == ChatMessage(id, thread[id])
    {
      var k :| 0 <= k < |ids| && ids[k] == id;
      var i :| 0 <= i < |r| && r[i] == d[k];
    }
  }

  /** `sendMessage`; `mode` defaults to normal, `now` is the client clock. */
  function SendMessage(thread: Thread, newId: string, coupleId: string, senderUid: string, senderName: string,
                       senderAvatar: Option<string>, content: string, mode: Option<Mode>, now: int): (r: Thread)
    requires newId !in thread
    ensures r.Keys == thread.Keys + {newId}
    ensures forall id :: id in thread ==> r[id] == thread[id]
    ensures var m := r[newId];
      && m.coupleId == coupleId && m.senderUid == senderUid && m.senderName == senderName
      && m.senderAvatar == senderAvatar && m.content == content && m.timestamp == now
      && m.mode == mode.GetOr(Normal) && m.edited == Some(false) && m.editedAt.None? && m.msgId.None?
  {
    thread[newId := ChatDoc(coupleId, senderUid, senderName, senderAvatar, content, mode.GetOr(Normal), now, Some(false), None, None)]
  }

  /** `editMessage`: new content, marked edited at `now`. */
  function EditMessage(thread: Thread, msgId: string, newContent: string, now: int): (r: Result<Thread>)
    ensures r.Err? <==> msgId !in thread
    ensures r.Err? ==> r.error == NoDocumentToUpdate
    ensures r.Ok? ==> r.value.Keys == thread.Keys
                      && r.value[msgId] == thread[msgId].(content := newContent, edited := Some(true), editedAt := Some(now))
                      && forall id :: id in thread && id != msgId ==> r.value[id] == thread[id]
  {
    if msgId !in thread then Err(NoDocumentToUpdate)
    else Ok(thread[msgId := thread[msgId].(content := newContent, edited := Some(true), editedAt := Some(now))])
  }

  /** Editing a sent message keeps its sender, mode and place in time. */
  lemma EditKeepsSender(thread: Thread, newId: string, coupleId: string, senderUid: string, senderName: string,
                        senderAvatar: Option<string>, content: string, mode: Option<Mode>, sentAt: int,
                        newContent: string, editedAt: int)
    requires newId !in thread
    ensures var sent := SendMessage(thread, newId, coupleId, senderUid, senderName, senderAvatar, content, mode, sentAt);
      var r := EditMessage(sent, newId, newContent, editedAt);
      && r.Ok?
      && r.value[newId] == ChatDoc(coupleId, senderUid, senderName, senderAvatar, newContent, mode.GetOr(Normal),
                                   sentAt, Some(true), Some(editedAt), None)
  {
  }

  // ---------------------------------------------------------------------------
  // The message input
  // ---------------------------------------------------------------------------

  /** The field after a submit, and the text handed to the sender if any. */
  datatype InputStep = InputStep(content: string, sent: Option<string>)

  /** `handleSubmit`: a text with something besides whitespace is sent as
      typed and the field cleared; otherwise nothing happens. */
  function Submit(content: string): (r: InputStep)
    ensures r.sent.Some? <==> !IsBlank(content)
    ensures r.sent.Some? ==> r.sent.value == content && r.content == ""
    ensures r.sent.None? ==> r.content == content
  {
    if Trim(content) != "" then InputStep("", Some(content)) else InputStep(content, None)
  }

  /** The send button's `disabled`. */
  predicate SendDisabled(content: string)
  {
    Trim(content) == ""
  }

  /** The button is disabled exactly when submitting would send nothing. */
  lemma DisabledIffNothingSent(content: string)
    ensures SendDisabled(content) <==> Submit(content).sent.None?
    ensures SendDisabled(content) <==> IsBlank(content)
  {
  }
}
