/** The database access rules (src/firebase/security-rules.ts): a list of
    allow rules per path pattern, any one of which grants a request; a
    request no rule grants is denied. A condition that reads a missing
    value (no signed-in user, no stored document) is an error, which the
    rules engine treats as a denial. */
module SecurityRules {
  import opened Wrappers

  /** The documents the app touches. */
  datatype Path =
    | UserDoc(uid: string)
    | CoupleDoc(coupleId: string)
    | ChatMessageDoc(coupleId: string, msgId: string)
    | SessionDoc(uid: string, sessionId: string)
    | SessionMessageDoc(uid: string, sessionId: string, msgId: string)
    | NotificationDoc(id: string)
    | NotificationItemDoc(uid: string, itemId: string)
    | PondMemoryDoc(coupleId: string, activityId: string)
    | GoalDoc(goalId: string)
    | QuackCountDoc(uid: string)

  /** `read` covers a single-document get and a collection query (list). */
  datatype Op = Get | List | Create | Update | Delete

  const Read: set<Op> := {Get, List}
  const Write: set<Op> := {Create, Update, Delete}

  /** The requester (absent when signed out), the operation and the document. */
  datatype Request = Request(auth: Option<string>, op: Op, path: Path)

  /** The stored document at the path, as far as the rules read it. */
  datatype Resource = Resource(userIds: Option<seq<string>>, senderUid: Option<string>)

  /** The members of every stored couple, for rules that look a couple up. */
  type Members = map<string, seq<string>>

  datatype Pattern = Users | Couples | ChatMessages | Sessions | Notifications | PondMemories | Everything

  datatype Condition = IsOwner | ResourceMember | CoupleMember | IsSender | Never

  datatype Rule = Rule(pattern: Pattern, ops: set<Op>, condition: Condition)

  /** Whether a pattern matches a path; a pattern names whole documents,
      so it does not reach into sub-collections. */
  predicate Matches(p: Pattern, path: Path)
  {
    match p
    case Users => path.UserDoc?
    case Couples => path.CoupleDoc?
    case ChatMessages => path.ChatMessageDoc?
    case Sessions => path.SessionDoc?
    case Notifications => path.NotificationDoc?
    case PondMemories => path.PondMemoryDoc?
    case Everything => true
  }

  /** The `{uid}` segment the owner rules compare with. */
  function OwnerSegment(path: Path): Option<string>
  {
    match path
    case UserDoc(uid) => Some(uid)
    case SessionDoc(uid, _) => Some(uid)
    case NotificationDoc(id) => Some(id)
    case _ => None
  }

  /** The `{coupleId}` segment the membership rules look up. */
  function CoupleSegment(path: Path): Option<string>
  {
    match path
    case ChatMessageDoc(coupleId, _) => Some(coupleId)
    case PondMemoryDoc(coupleId, _) => Some(coupleId)
    case _ => None
  }

  predicate Holds(c: Condition, req: Request, stored: Option<Resource>, members: Members)
  {
    match c
    case IsOwner => req.auth.Some? && OwnerSegment(req.path) == Some(req.auth.value)
    case ResourceMember =>
      req.auth.Some? && stored.Some? && stored.value.userIds.Some? && req.auth.value in stored.value.userIds.value
    case CoupleMember =>
      req.auth.Some? && CoupleSegment(req.path).Some? && CoupleSegment(req.path).value in members
      && req.auth.value in members[CoupleSegment(req.path).value]
    case IsSender => req.auth.Some? && stored.Some? && stored.value.senderUid == Some(req.auth.value)
    case Never => false
  }

  predicate Grants(r: Rule, req: Request, stored: Option<Resource>, members: Members)
  {
    Matches(r.pattern, req.path) && req.op in r.ops && Holds(r.condition, req, stored, members)
  }

  /** Rules are combined with "or": some rule grants the request. */
  predicate AnyGrants(rules: seq<Rule>, req: Request, stored: Option<Resource>, members: Members)
  {
    exists i :: 0 <= i < |rules| && Grants(rules[i], req, stored, members)
  }

  /** The rules as written, in order. */
  const Rules: seq<Rule> := [
    Rule(Users, Read, IsOwner),
    Rule(Users, Write, IsOwner),
    Rule(Users, Read, Never),
    Rule(Couples, Read, ResourceMember),
    Rule(Couples, Write, ResourceMember),
    Rule(ChatMessages, Read, CoupleMember),
    Rule(ChatMessages, {Create}, CoupleMember),
    Rule(ChatMessages, {Update, Delete}, IsSender),
    Rule(Sessions, Read + Write, IsOwner),
    Rule(Sessions, Read, Never),
    Rule(Notifications, Read, IsOwner),
    Rule(Notifications, Write, IsOwner),
    Rule(PondMemories, Read + Write, CoupleMember),
    Rule(Everything, Read + Write, Never)
  ]

  /** The decision per document, written out. */
  predicate Decision(req: Request, stored: Option<Resource>, members: Members)
  {
    match req.path
    case UserDoc(uid) => req.auth == Some(uid)
    case CoupleDoc(_) => Holds(ResourceMember, req, stored, members)
    case ChatMessageDoc(_, _) =>
      if req.op in {Get, List, Create} then Holds(CoupleMember, req, stored, members) else Holds(IsSender, req, stored, members)
    case SessionDoc(uid, _) => req.auth == Some(uid)
    case NotificationDoc(id) => req.auth == Some(id)
    case PondMemoryDoc(_, _) => Holds(CoupleMember, req, stored, members)
    case _ => false
  }

  /** The rule list decides every request as the written-out decision does. */
  lemma RulesDecide(req: Request, stored: Option<Resource>, members: Members)
    ensures AnyGrants(Rules, req, stored, members) <==> Decision(req, stored, members)
  {
    if Decision(req, stored, members) {
      DecisionGranted(req, stored, members);
    }
    if AnyGrants(Rules, req, stored, members) {
      var i :| 0 <= i < |Rules| && Grants(Rules[i], req, stored, members);
      GrantDecided(i, req, stored, members);
    }
  }

  /** Every request the written-out decision allows, some rule grants. */
  lemma DecisionGranted(req: Request, stored: Option<Resource>, members: Members)
    requires Decision(req, stored, members)
    ensures AnyGrants(Rules, req, stored, members)
  {
    assert req.op in Read + Write by {
      assert req.op.Get? || req.op.List? || req.op.Create? || req.op.Update? || req.op.Delete?;
    }
    match req.path
    case UserDoc(_) =>
      if req.op in Read { assert Grants(Rules[0], req, stored, members); }
      else { assert Grants(Rules[1], req, stored, members); }
    case CoupleDoc(_) =>
      if req.op in Read { assert Grants(Rules[3], req, stored, members); }
      else { assert Grants(Rules[4], req, stored, members); }
    case ChatMessageDoc(_, _) =>
      if req.op in Read { assert Grants(Rules[5], req, stored, members); }
      else if req.op == Create { assert Grants(Rules[6], req, stored, members); }
      else { assert Grants(Rules[7], req, stored, members); }
    case SessionDoc(_, _) =>
      assert Grants(Rules[8], req, stored, members);
    case NotificationDoc(_) =>
      if req.op in Read { assert Grants(Rules[10], req, stored, members); }
      else { assert Grants(Rules[11], req, stored, members); }
    case PondMemoryDoc(_, _) =>
      assert Grants(Rules[12], req, stored, members);
  }

  /** Every rule grants only what the written-out decision allows. */
  lemma GrantDecided(i: nat, req: Request, stored: Option<Resource>, members: Members)
    requires i < |Rules| && Grants(Rules[i], req, stored, members)
    ensures Decision(req, stored, members)
  {
    if i < 7 {
      assert i in {0, 1, 2, 3, 4, 5, 6};
    } else {
      assert i in {7, 8, 9, 10, 11, 12, 13};
    }
  }

  /** An `allow … if false` rule takes no access away: dropping every such
      rule grants the same requests. */
  lemma NeverRevokes(rules: seq<Rule>, req: Request, stored: Option<Resource>, members: Members)
    ensures var kept := seq(|rules|, i requires 0 <= i < |rules| => if rules[i].condition == Never then Rule(rules[i].pattern, {}, Never) else rules[i]);
      AnyGrants(rules, req, stored, members) <==> AnyGrants(kept, req, stored, members)
  {
    var kept := seq(|rules|, i requires 0 <= i < |rules| => if rules[i].condition == Never then Rule(rules[i].pattern, {}, Never) else rules[i]);
    if AnyGrants(rules, req, stored, members) {
      var i :| 0 <= i < |rules| && Grants(rules[i], req, stored, members);
      assert Grants(kept[i], req, stored, members);
    }
    if AnyGrants(kept, req, stored, members) {
      var i :| 0 <= i < |kept| && Grants(kept[i], req, stored, members);
      assert Grants(rules[i], req, stored, members);
    }
  }

  /** Users and sessions are private to their owner, whoever asks and
      whatever is stored. */
  lemma OwnerOnly(req: Request, stored: Option<Resource>, members: Members)
    requires req.path.UserDoc? || req.path.SessionDoc?
    ensures AnyGrants(Rules, req, stored, members) <==> req.auth.Some? && req.auth.value == req.path.uid
  {
    RulesDecide(req, stored, members);
  }

  /** A couple document can be created by nobody: the condition reads the
      document that does not exist yet. */
  lemma CoupleCreationDenied(uid: string, coupleId: string, members: Members)
    ensures !AnyGrants(Rules, Request(Some(uid), Create, CoupleDoc(coupleId)), None, members)
  {
    RulesDecide(Request(Some(uid), Create, CoupleDoc(coupleId)), None, members);
  }

  /** Notification documents are matched by their id, so a user may read a
      notification only when its document id is the user's own uid. */
  lemma NotificationReadNeedsOwnId(uid: string, id: string, stored: Option<Resource>, members: Members)
    requires id != uid
    ensures !AnyGrants(Rules, Request(Some(uid), Get, NotificationDoc(id)), stored, members)
  {
    RulesDecide(Request(Some(uid), Get, NotificationDoc(id)), stored, members);
  }

  /** Goals, quack counters, session messages and the partner's summary
      items fall under no allow rule. */
  lemma UnlistedDenied(req: Request, stored: Option<Resource>, members: Members)
    requires req.path.GoalDoc? || req.path.QuackCountDoc? || req.path.SessionMessageDoc? || req.path.NotificationItemDoc?
    ensures !AnyGrants(Rules, req, stored, members)
  {
    RulesDecide(req, stored, members);
  }

  // ---------------------------------------------------------------------------
  // Queries
  // ---------------------------------------------------------------------------

  /** A document a query may return: its path and its stored fields. */
  datatype Candidate = Candidate(path: Path, stored: Option<Resource>)

  /** Rules are not filters: a collection query is allowed only when the list
      request is granted for every document its filters admit. `candidates`
      are those documents, over every database the filters could meet. */
  predicate QueryAllowed(auth: Option<string>, candidates: seq<Candidate>, members: Members)
  {
    forall i :: 0 <= i < |candidates| ==> AnyGrants(Rules, Request(auth, List, candidates[i].path), candidates[i].stored, members)
  }

  /** The query is allowed exactly when the written-out decision allows a
      list of each admitted document. */
  lemma QueryDecide(auth: Option<string>, candidates: seq<Candidate>, members: Members)
    ensures QueryAllowed(auth, candidates, members) <==>
      forall i :: 0 <= i < |candidates| ==> Decision(Request(auth, List, candidates[i].path), candidates[i].stored, members)
  {
    forall i | 0 <= i < |candidates|
      ensures AnyGrants(Rules, Request(auth, List, candidates[i].path), candidates[i].stored, members)
              <==> Decision(Request(auth, List, candidates[i].path), candidates[i].stored, members)
    {
      RulesDecide(Request(auth, List, candidates[i].path), candidates[i].stored, members);
    }
  }

  /** One admitted document the list rule refuses makes the whole query fail. */
  lemma OneRefusalDenies(auth: Option<string>, candidates: seq<Candidate>, members: Members, k: nat)
    requires k < |candidates| && !Decision(Request(auth, List, candidates[k].path), candidates[k].stored, members)
    ensures !QueryAllowed(auth, candidates, members)
  {
    RulesDecide(Request(auth, List, candidates[k].path), candidates[k].stored, members);
  }

  /** The invite-code query (`where('inviteCode', '==', code)` on couples)
      does not constrain the members, so it admits a couple the requester is
      not in, and the query is denied. */
  lemma InviteCodeQueryDenied(uid: string, candidates: seq<Candidate>, members: Members, k: nat)
    requires k < |candidates| && candidates[k].path.CoupleDoc?
    requires candidates[k].stored.Some? && candidates[k].stored.value.userIds.Some?
    requires uid !in candidates[k].stored.value.userIds.value
    ensures !QueryAllowed(Some(uid), candidates, members)
  {
    OneRefusalDenies(Some(uid), candidates, members, k);
  }

  /** The notification queries (`where('uid', '==', uid)`) cannot fix the
      document id, which the rule compares with the requester, so they admit
      a notification under another id and are denied. */
  lemma NotificationQueryDenied(uid: string, candidates: seq<Candidate>, members: Members, k: nat)
    requires k < |candidates| && candidates[k].path.NotificationDoc? && candidates[k].path.id != uid
    ensures !QueryAllowed(Some(uid), candidates, members)
  {
    OneRefusalDenies(Some(uid), candidates, members, k);
  }

  /** The chat subscription lists one couple's messages, and is allowed
      exactly for a signed-in member of that couple. */
  lemma ChatQueryNeedsMember(auth: Option<string>, coupleId: string, candidates: seq<Candidate>, members: Members)
    requires |candidates| > 0
    requires forall i :: 0 <= i < |candidates| ==> candidates[i].path.ChatMessageDoc? && candidates[i].path.coupleId == coupleId
    ensures QueryAllowed(auth, candidates, members) <==> auth.Some? && coupleId in members && auth.value in members[coupleId]
  {
    QueryDecide(auth, candidates, members);
    assert Decision(Request(auth, List, candidates[0].path), candidates[0].stored, members)
           <==> auth.Some? && coupleId in members && auth.value in members[coupleId];
  }

  /** The goal subscription and the session-message subscription list
      collections no rule matches, so any query that can return a document
      is denied. */
  lemma UnlistedQueryDenied(auth: Option<string>, candidates: seq<Candidate>, members: Members, k: nat)
    requires k < |candidates| && (candidates[k].path.GoalDoc? || candidates[k].path.SessionMessageDoc?)
    ensures !QueryAllowed(auth, candidates, members)
  {
    OneRefusalDenies(auth, candidates, members, k);
  }
}
