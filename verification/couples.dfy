/** The couple record, its special dates and the user profile
    (src/types/couple.ts, src/types/user.ts), and the couple service
    (src/firebase/coupleService.ts) over a store of two collections. */
module Couples {
  import opened Wrappers
  import opened Seqs
  import opened Text
  import opened Firestore

  /** A user profile. `birthdate` is a millisecond timestamp. */
  datatype User = User(uid: string, displayName: string, birthdate: Option<int>, coupleId: Option<string>)

  /** A special date; `recurring` may be absent on stored entries. */
  datatype SpecialDate = SpecialDate(id: string, name: string, date: int, recurring: Option<bool>)

  datatype Couple = Couple(
    coupleId: string,
    userIds: seq<string>,
    createdBy: string,
    createdAt: int,
    inviteCode: Option<string>,
    relationshipStatus: Option<string>,
    anniversary: Option<int>,
    meetStory: Option<string>,
    specialDates: Option<seq<SpecialDate>>,
    updatedAt: Option<int>)

  /** The `users` and `couples` collections, each a map from document id to document. */
  datatype Store = Store(users: map<string, User>, couples: map<string, Couple>)

  /** What a service call leaves behind: the store (written even when a later
      step fails) and the value returned or the error thrown. */
  datatype Outcome<T> = Outcome(store: Store, result: Result<T>)

  const NotAuthenticated := "User not authenticated"
  const InvalidInviteCode := "Invalid invite code"
  const CoupleFull := "Couple already full"
  const AlreadyMember := "You are already in this couple"
  const CoupleIdRequired := "Couple ID is required."
  const NameRequired := "Special date name is required."
  const DateRequired := "Special date date is required."
  const CoupleNotFound := "Couple not found."
  const DateNotFound := "Special date not found."
  const AnniversaryNotDeletable := "Anniversary cannot be deleted directly."
  /** Reading the partner's profile fails (the source dereferences `undefined`). */
  const PartnerUnreadable := "Partner profile could not be read"

  /** The id of the anniversary pseudo-entry. */
  const AnniversaryId := "anniversary"

  // ---------------------------------------------------------------------------
  // Invite codes
  // ---------------------------------------------------------------------------

  const InviteAlphabet: string := "ABCDEFGHIJKLMNOPQRSTUVWXYZ0123456789"
  const DefaultInviteCodeLength: nat := 8

  predicate IsInviteChar(c: char)
  {
    'A' <= c <= 'Z' || '0' <= c <= '9'
  }

  /** `draws` are the indices `Math.floor(Math.random() * 36)` picks, one per character. */
  predicate ValidDraws(draws: seq<nat>)
  {
    forall i :: 0 <= i < |draws| ==> draws[i] < |InviteAlphabet|
  }

  /** The alphabet position of an invite character: letters first, then digits. */
  function DrawOf(c: char): nat
  {
    if 'A' <= c <= 'Z' then c as nat - 'A' as nat
    else if '0' <= c <= '9' then c as nat - '0' as nat + 26
    else 0
  }

  /** The alphabet position of each character of a code. */
  function DrawsOf(code: string): (draws: seq<nat>)
    ensures |draws| == |code|
    ensures forall i :: 0 <= i < |code| ==> draws[i] == DrawOf(code[i])
  {
    seq(|code|, i requires 0 <= i < |code| => DrawOf(code[i]))
  }

  /** Each alphabet entry sits at its own position. */
  lemma AlphabetPositions()
    ensures forall i :: 0 <= i < |InviteAlphabet| ==> DrawOf(InviteAlphabet[i]) == i
  {
  }

  /** The code spelled by the draws: one upper-case letter or digit per draw. */
  function InviteCodeOf(draws: seq<nat>): (code: string)
    requires ValidDraws(draws)
    ensures |code| == |draws|
    ensures forall i :: 0 <= i < |code| ==> IsInviteChar(code[i])
    ensures forall i :: 0 <= i < |code| ==> code[i] == InviteAlphabet[draws[i]]
  {
    AlphabetChars();
    seq(|draws|, i requires 0 <= i < |draws| => InviteAlphabet[draws[i]])
  }

  /** Every character of the alphabet is an upper-case letter or a digit. */
  lemma AlphabetChars()
    ensures |InviteAlphabet| == 36
    ensures forall i :: 0 <= i < |InviteAlphabet| ==> IsInviteChar(InviteAlphabet[i])
  {
  }

  /** The draws can be read back from the code, so different draws give
      different codes. */
  lemma InviteCodeDecodes(draws: seq<nat>)
    requires ValidDraws(draws)
    ensures DrawsOf(InviteCodeOf(draws)) == draws
  {
    AlphabetPositions();
  }

  /** `generateInviteCode(length)`: appends one drawn character per iteration. */
  method GenerateInviteCode(length: nat, draws: seq<nat>) returns (code: string)
    requires |draws| == length && ValidDraws(draws)
    ensures |code| == length
    ensures forall i :: 0 <= i < length ==> IsInviteChar(code[i])
    ensures code == InviteCodeOf(draws)
  {
    AlphabetChars();
    code := "";
    var i := 0;
    while i < length
      invariant 0 <= i <= length
      invariant code == InviteCodeOf(draws[..i])
    {
      code := code + [InviteAlphabet[draws[i]]];
      i := i + 1;
    }
    assert draws[..length] == draws;
  }

  /** A generated code is already upper case, so the linking page's
      upper-casing of typed input leaves it unchanged. */
  lemma InviteCodeIsUpperCase(draws: seq<nat>)
    requires ValidDraws(draws)
    ensures ToUpperAscii(InviteCodeOf(draws)) == InviteCodeOf(draws)
  {
    AlphabetChars();
  }

  // ---------------------------------------------------------------------------
  // Birthdays
  // ---------------------------------------------------------------------------

  /** `if (user.birthdate)`: absent and the timestamp 0 are both false. */
  predicate HasBirthdate(u: User)
  {
    u.birthdate.Some? && u.birthdate.value != 0
  }

  function BirthdayName(u: User): string
  {
    u.displayName + "'s Birthday"
  }

  function Birthday(u: User, id: string): SpecialDate
    requires HasBirthdate(u)
  {
    SpecialDate(id, BirthdayName(u), u.birthdate.value, Some(true))
  }

  /** Number of entries carrying exactly this name. */
  function NameCount(dates: seq<SpecialDate>, name: string): nat
  {
    if |dates| == 0 then 0
    else (if dates[0].name == name then 1 else 0) + NameCount(dates[1..], name)
  }

  lemma {:induction false} NameCountAppend(a: seq<SpecialDate>, b: seq<SpecialDate>, name: string)
    ensures NameCount(a + b, name) == NameCount(a, name) + NameCount(b, name)
  {
    if |a| == 0 {
      assert a + b == b;
    } else {
      assert (a + b)[1..] == a[1..] + b;
      NameCountAppend(a[1..], b, name);
    }
  }

  lemma {:induction false} NameCountZero(dates: seq<SpecialDate>, name: string)
    ensures NameCount(dates, name) == 0 <==> forall i :: 0 <= i < |dates| ==> dates[i].name != name
  {
    if |dates| > 0 {
      NameCountZero(dates[1..], name);
      assert forall i :: 1 <= i < |dates| ==> dates[i] == dates[1..][i - 1];
    }
  }

  /** `specialDates.some(d => d.name === name)`. */
  predicate HasNamed(dates: seq<SpecialDate>, name: string)
  {
    exists i :: 0 <= i < |dates| && dates[i].name == name
  }

  /** Appends the person's birthday unless they have no birthdate or an entry
      with exactly that name already exists. */
  function AddBirthdayIfMissing(dates: seq<SpecialDate>, u: User, id: string): (r: seq<SpecialDate>)
    ensures r == dates || (HasBirthdate(u) && !HasNamed(dates, BirthdayName(u)) && r == dates + [Birthday(u, id)])
    ensures HasBirthdate(u) ==> HasNamed(r, BirthdayName(u))
    ensures forall n :: NameCount(r, n) == NameCount(dates, n)
                        || (NameCount(dates, n) == 0 && NameCount(r, n) == 1)
  {
    if HasBirthdate(u) && !HasNamed(dates, BirthdayName(u)) then
      var r := dates + [Birthday(u, id)];
      assert r[|dates|].name == BirthdayName(u);
      NameCountZero(dates, BirthdayName(u));
      forall n
        ensures NameCount(r, n) == NameCount(dates, n) + (if n == BirthdayName(u) then 1 else 0)
      {
        NameCountAppend(dates, [Birthday(u, id)], n);
        assert [Birthday(u, id)][1..] == [];
      }
      r
    else
      dates
  }

  // ---------------------------------------------------------------------------
  // createCouple
  // ---------------------------------------------------------------------------

  datatype Created = Created(coupleId: string, inviteCode: string)

  /** The couple document a creator starts with. */
  function NewCouple(u: User, coupleId: string, code: string, birthdayId: string, now: int): Couple
  {
    var dates := if HasBirthdate(u) then [Birthday(u, birthdayId)] else [];
    Couple(coupleId, [u.uid], u.uid, now, Some(code), None, None, None, Some(dates), None)
  }

  /** `createCouple(user)`: adds a couple under the fresh id `newCoupleId`,
      then records that id on the creator's profile. */
  function CreateCouple(st: Store, user: Option<User>, draws: seq<nat>, newCoupleId: string,
                        birthdayId: string, now: int): (o: Outcome<Created>)
    requires |draws| == DefaultInviteCodeLength && ValidDraws(draws)
    requires newCoupleId !in st.couples
    ensures user.None? ==> o == Outcome(st, Err(NotAuthenticated))
    ensures user.Some? ==> newCoupleId in o.store.couples && o.store.users.Keys == st.users.Keys
    ensures o.result.Ok? ==> o.result.value == Created(newCoupleId, InviteCodeOf(draws))
                             && user.Some? && user.value.uid in o.store.users
                             && o.store.users[user.value.uid].coupleId == Some(newCoupleId)
  {
    match user
    case None => Outcome(st, Err(NotAuthenticated))
    case Some(u) =>
      var code := InviteCodeOf(draws);
      var st1 := st.(couples := st.couples[newCoupleId := NewCouple(u, newCoupleId, code, birthdayId, now)]);
      if u.uid !in st1.users then Outcome(st1, Err(NoDocumentToUpdate))
      else
        var st2 := st1.(users := st1.users[u.uid := st1.users[u.uid].(coupleId := Some(newCoupleId))]);
        Outcome(st2, Ok(Created(newCoupleId, code)))
  }

  /** The new couple has exactly the creator as member, the generated code, and
      one recurring birthday entry named after the creator iff the creator has
      a birthdate. */
  lemma CreateCoupleRecord(st: Store, u: User, draws: seq<nat>, newCoupleId: string, birthdayId: string, now: int)
    requires |draws| == DefaultInviteCodeLength && ValidDraws(draws)
    requires newCoupleId !in st.couples
    ensures var c := CreateCouple(st, Some(u), draws, newCoupleId, birthdayId, now).store.couples[newCoupleId];
      && c.userIds == [u.uid]
      && c.createdBy == u.uid
      && c.inviteCode == Some(InviteCodeOf(draws))
      && |InviteCodeOf(draws)| == 8
      && c.specialDates.Some?
      && (HasBirthdate(u) ==> c.specialDates.value == [SpecialDate(birthdayId, u.displayName + "'s Birthday", u.birthdate.value, Some(true))])
      && (!HasBirthdate(u) ==> c.specialDates.value == [])
  {
  }

  // ---------------------------------------------------------------------------
  // joinCoupleByCode
  // ---------------------------------------------------------------------------

  /** `arrayUnion(x)` on an array field: appends `x` unless already present. */
  function ArrayUnion<T(==)>(s: seq<T>, x: T): (r: seq<T>)
    ensures x in r
    ensures x in s ==> r == s
    ensures x !in s ==> r == s + [x]
  {
    if x in s then s else s + [x]
  }

  /** The ids of the couples whose invite code equals `code`. */
  function WithInviteCode(couples: map<string, Couple>, code: string): set<string>
  {
    set id | id in couples && couples[id].inviteCode == Some(code)
  }

  /** The first document the invite-code query returns: one of the matching
      couples, or none when nothing matches. Which match comes first is the
      store's choice. */
  predicate IsQueryAnswer(st: Store, code: string, first: Option<string>)
  {
    match first
    case None => WithInviteCode(st.couples, code) == {}
    case Some(id) => id in WithInviteCode(st.couples, code)
  }

  /** `joinCoupleByCode(inviteCode, user)`. `first` is the query's first
      document; the two ids are the random ids of the birthday entries. */
  function JoinCoupleByCode(st: Store, code: string, user: Option<User>, first: Option<string>,
                            userBirthdayId: string, partnerBirthdayId: string): (o: Outcome<string>)
    requires IsQueryAnswer(st, code, first)
    ensures o.result.Err? && o.store != st ==> first.Some? && user.Some? && o.result.error == NoDocumentToUpdate
    ensures o.result.Ok? ==> first.Some? && o.result.value == first.value
  {
    if user.None? then Outcome(st, Err(NotAuthenticated))
    else if first.None? then Outcome(st, Err(InvalidInviteCode))
    else
      var u := user.value;
      var id := first.value;
      var c := st.couples[id];
      if |c.userIds| >= 2 then Outcome(st, Err(CoupleFull))
      else if u.uid in c.userIds then Outcome(st, Err(AlreadyMember))
      else if |c.userIds| == 0 || c.userIds[0] !in st.users then Outcome(st, Err(PartnerUnreadable))
      else
        var partner := st.users[c.userIds[0]];
        var dates := c.specialDates.GetOr([]);
        var dates1 := AddBirthdayIfMissing(dates, u, userBirthdayId);
        var dates2 := AddBirthdayIfMissing(dates1, partner, partnerBirthdayId);
        var c' := c.(userIds := ArrayUnion(c.userIds, u.uid), specialDates := Some(dates2));
        var st1 := st.(couples := st.couples[id := c']);
        if u.uid !in st1.users then Outcome(st1, Err(NoDocumentToUpdate))
        else Outcome(st1.(users := st1.users[u.uid := st1.users[u.uid].(coupleId := Some(id))]), Ok(id))
  }

  /** The guards in order: no user, unknown code, a full couple (checked before
      membership, so a member of a full couple hears "full"), then membership.
      Each rejection leaves the store untouched. */
  lemma JoinGuards(st: Store, code: string, user: Option<User>, first: Option<string>, i1: string, i2: string)
    requires IsQueryAnswer(st, code, first)
    ensures var o := JoinCoupleByCode(st, code, user, first, i1, i2);
      && (user.None? ==> o == Outcome(st, Err(NotAuthenticated)))
      && (user.Some? && WithInviteCode(st.couples, code) == {} ==> o == Outcome(st, Err(InvalidInviteCode)))
      && (user.Some? && first.Some? && |st.couples[first.value].userIds| >= 2 ==> o == Outcome(st, Err(CoupleFull)))
      && ((user.Some? && first.Some? && |st.couples[first.value].userIds| < 2
           && user.value.uid in st.couples[first.value].userIds) ==> o == Outcome(st, Err(AlreadyMember)))
  {
  }

  /** A successful join adds exactly the joiner to the members, keeps every
      existing special date in place, appends only birthdays, never duplicates
      a name that was unique, and links the joiner's profile. */
  lemma JoinSuccess(st: Store, code: string, u: User, first: Option<string>, i1: string, i2: string)
    requires IsQueryAnswer(st, code, first)
    requires JoinCoupleByCode(st, code, Some(u), first, i1, i2).result.Ok?
    ensures var o := JoinCoupleByCode(st, code, Some(u), first, i1, i2);
      var id := first.value;
      var old_ := st.couples[id];
      var new_ := o.store.couples[id];
      && id in o.store.couples
      && new_.userIds == old_.userIds + [u.uid]
      && (set x | x in new_.userIds) == (set x | x in old_.userIds) + {u.uid}
      && new_.specialDates.Some?
      && old_.specialDates.GetOr([]) <= new_.specialDates.value
      && |new_.specialDates.value| <= |old_.specialDates.GetOr([])| + 2
      && (forall n :: NameCount(old_.specialDates.GetOr([]), n) <= 1 ==> NameCount(new_.specialDates.value, n) <= 1)
      && |old_.userIds| == 1 && old_.userIds[0] in st.users
      && new_.specialDates.value == AddBirthdayIfMissing(AddBirthdayIfMissing(old_.specialDates.GetOr([]), u, i1),
                                                         st.users[old_.userIds[0]], i2)
      && (HasBirthdate(u) ==> HasNamed(new_.specialDates.value, BirthdayName(u)))
      && (HasBirthdate(st.users[old_.userIds[0]]) ==> HasNamed(new_.specialDates.value, BirthdayName(st.users[old_.userIds[0]])))
      && o.store.users[u.uid].coupleId == Some(id)
      && (forall other :: other in st.couples && other != id ==> other in o.store.couples && o.store.couples[other] == st.couples[other])
  {
    var id := first.value;
    var c := st.couples[id];
    var partner := st.users[c.userIds[0]];
    var dates := c.specialDates.GetOr([]);
    var dates1 := AddBirthdayIfMissing(dates, u, i1);
    var dates2 := AddBirthdayIfMissing(dates1, partner, i2);
    assert dates <= dates1 <= dates2;
    forall n | NameCount(dates, n) <= 1
      ensures NameCount(dates2, n) <= 1
    {
      assert NameCount(dates1, n) == NameCount(dates, n) || (NameCount(dates, n) == 0 && NameCount(dates1, n) == 1);
      assert NameCount(dates2, n) == NameCount(dates1, n) || (NameCount(dates1, n) == 0 && NameCount(dates2, n) == 1);
    }
    assert HasBirthdate(u) ==> HasNamed(dates1, BirthdayName(u));
    if HasBirthdate(u) {
      var k :| 0 <= k < |dates1| && dates1[k].name == BirthdayName(u);
      assert dates2[k] == dates1[k];
    }
  }

  // ---------------------------------------------------------------------------
  // updateCoupleDetails
  // ---------------------------------------------------------------------------

  /** The optional fields of `updateCoupleDetails`; `anniversary` is already a
      timestamp (`getTime()` of the given date). */
  datatype Details = Details(relationshipStatus: Option<string>, anniversary: Option<int>, meetStory: Option<string>)

  /** `if (s)` on an optional string: present and non-empty. */
  predicate NonEmpty(s: Option<string>)
  {
    s.Some? && s.value != ""
  }

  /** The payload: `updatedAt`, the two texts only when non-empty, the
      anniversary whenever given. */
  function ApplyDetails(c: Couple, details: Details, now: int): (r: Couple)
    ensures r.updatedAt == Some(now)
    ensures r.relationshipStatus == (if NonEmpty(details.relationshipStatus) then details.relationshipStatus else c.relationshipStatus)
    ensures r.meetStory == (if NonEmpty(details.meetStory) then details.meetStory else c.meetStory)
    ensures r.anniversary == (if details.anniversary.Some? then details.anniversary else c.anniversary)
    ensures r.(relationshipStatus := c.relationshipStatus, meetStory := c.meetStory,
               anniversary := c.anniversary, updatedAt := c.updatedAt) == c
  {
    c.(updatedAt := Some(now),
       relationshipStatus := if NonEmpty(details.relationshipStatus) then details.relationshipStatus else c.relationshipStatus,
       meetStory := if NonEmpty(details.meetStory) then details.meetStory else c.meetStory,
       anniversary := if details.anniversary.Some? then details.anniversary else c.anniversary)
  }

  function UpdateCoupleDetails(st: Store, coupleId: string, details: Details, now: int): (o: Outcome<()>)
    ensures o.result.Err? ==> o.store == st
    ensures coupleId == "" ==> o.result == Err(CoupleIdRequired)
    ensures o.result.Ok? <==> coupleId != "" && coupleId in st.couples
    ensures o.result.Ok? ==> o.store == st.(couples := st.couples[coupleId := ApplyDetails(st.couples[coupleId], details, now)])
  {
    if coupleId == "" then Outcome(st, Err(CoupleIdRequired))
    else if coupleId !in st.couples then Outcome(st, Err(NoDocumentToUpdate))
    else Outcome(st.(couples := st.couples[coupleId := ApplyDetails(st.couples[coupleId], details, now)]), Ok(()))
  }

  // ---------------------------------------------------------------------------
  // Special dates
  // ---------------------------------------------------------------------------

  function DatesOf(c: Couple): seq<SpecialDate>
  {
    c.specialDates.GetOr([])
  }

  predicate HasId(dates: seq<SpecialDate>, id: string)
  {
    exists i :: 0 <= i < |dates| && dates[i].id == id
  }

  /** `addSpecialDate(coupleId, name, date, recurring)`; `newId` is the random id. */
  function AddSpecialDate(st: Store, coupleId: string, name: string, date: int, recurring: bool,
                          newId: string, now: int): (o: Outcome<SpecialDate>)
    ensures o.result.Err? ==> o.store == st
    ensures coupleId == "" ==> o.result == Err(CoupleIdRequired)
    ensures coupleId != "" && name == "" ==> o.result == Err(NameRequired)
    ensures coupleId != "" && name != "" && date == 0 ==> o.result == Err(DateRequired)
    ensures o.result.Ok? <==> coupleId != "" && name != "" && date != 0 && coupleId in st.couples
    ensures o.result.Ok? ==>
      && o.result.value == SpecialDate(newId, name, date, Some(recurring))
      && coupleId in o.store.couples
      && o.store.couples[coupleId].updatedAt == Some(now)
      && (!HasId(DatesOf(st.couples[coupleId]), newId) ==>
            DatesOf(o.store.couples[coupleId]) == DatesOf(st.couples[coupleId]) + [o.result.value])
      && o.store == st.(couples := st.couples[coupleId := st.couples[coupleId].(
           specialDates := Some(DatesOf(o.store.couples[coupleId])), updatedAt := Some(now))])
  {
    if coupleId == "" then Outcome(st, Err(CoupleIdRequired))
    else if name == "" then Outcome(st, Err(NameRequired))
    else if date == 0 then Outcome(st, Err(DateRequired))
    else if coupleId !in st.couples then Outcome(st, Err(NoDocumentToUpdate))
    else
      var entry := SpecialDate(newId, name, date, Some(recurring));
      var c := st.couples[coupleId];
      var c' := c.(specialDates := Some(ArrayUnion(DatesOf(c), entry)), updatedAt := Some(now));
      Outcome(st.(couples := st.couples[coupleId := c']), Ok(entry))
  }

  /** `updateSpecialDate(coupleId, updatedDate)`. */
  function UpdateSpecialDate(st: Store, coupleId: string, updated: SpecialDate, now: int): (o: Outcome<()>)
    ensures o.result.Err? ==> o.store == st
    ensures coupleId == "" ==> o.result == Err(CoupleIdRequired)
    ensures coupleId != "" && coupleId !in st.couples ==> o.result == Err(CoupleNotFound)
  {
    if coupleId == "" then Outcome(st, Err(CoupleIdRequired))
    else if coupleId !in st.couples then Outcome(st, Err(CoupleNotFound))
    else
      var c := st.couples[coupleId];
      if updated.id == AnniversaryId then
        Outcome(st.(couples := st.couples[coupleId := c.(anniversary := Some(updated.date), updatedAt := Some(now))]), Ok(()))
      else
        var dates := DatesOf(c);
        var k := FindIndex(dates, (d: SpecialDate) => d.id == updated.id);
        if k > -1 then
          Outcome(st.(couples := st.couples[coupleId := c.(specialDates := Some(dates[k := updated]), updatedAt := Some(now))]), Ok(()))
        else Outcome(st, Err(DateNotFound))
  }

  /** The anniversary id writes only the anniversary; any other id replaces the
      first entry with that id, keeping length and every other entry, or fails
      when no entry has it. */
  lemma UpdateSpecialDateEffect(st: Store, coupleId: string, updated: SpecialDate, now: int)
    requires coupleId != "" && coupleId in st.couples
    ensures var o := UpdateSpecialDate(st, coupleId, updated, now);
      var c := st.couples[coupleId];
      && (updated.id == AnniversaryId ==>
            o == Outcome(st.(couples := st.couples[coupleId := c.(anniversary := Some(updated.date), updatedAt := Some(now))]), Ok(())))
      && (updated.id != AnniversaryId && !HasId(DatesOf(c), updated.id) ==> o == Outcome(st, Err(DateNotFound)))
      && (updated.id != AnniversaryId && HasId(DatesOf(c), updated.id) ==>
            o.result.Ok? && coupleId in o.store.couples &&
            var before := DatesOf(c);
            var after := DatesOf(o.store.couples[coupleId]);
            && |after| == |before|
            && exists k :: 0 <= k < |before| && before[k].id == updated.id
                 && (forall j :: 0 <= j < k ==> before[j].id != updated.id)
                 && after == before[k := updated]
                 && o.store == st.(couples := st.couples[coupleId := c.(specialDates := Some(after), updatedAt := Some(now))]))
  {
    var c := st.couples[coupleId];
    if updated.id != AnniversaryId {
      var dates := DatesOf(c);
      var k := FindIndex(dates, (d: SpecialDate) => d.id == updated.id);
      if HasId(dates, updated.id) {
        var j :| 0 <= j < |dates| && dates[j].id == updated.id;
        assert k != -1;
      }
    }
  }

  /** `deleteSpecialDate(coupleId, dateId)`. */
  function DeleteSpecialDate(st: Store, coupleId: string, dateId: string, now: int): (o: Outcome<()>)
    ensures o.result.Err? ==> o.store == st
    ensures coupleId == "" ==> o.result == Err(CoupleIdRequired)
    ensures coupleId != "" && dateId == AnniversaryId ==> o.result == Err(AnniversaryNotDeletable)
    ensures coupleId != "" && dateId != AnniversaryId && coupleId !in st.couples ==> o.result == Err(CoupleNotFound)
    ensures o.result.Ok? <==> coupleId != "" && dateId != AnniversaryId && coupleId in st.couples
    ensures o.result.Ok? ==> coupleId in st.couples && coupleId in o.store.couples
    ensures o.result.Ok? && coupleId in st.couples && coupleId in o.store.couples ==>
      var before := DatesOf(st.couples[coupleId]);
      var after := DatesOf(o.store.couples[coupleId]);
      && (forall i :: 0 <= i < |after| ==> after[i].id != dateId && after[i] in before)
      && (forall i :: 0 <= i < |before| && before[i].id != dateId ==> before[i] in after)
      && after == Filter(before, (d: SpecialDate) => d.id != dateId)
      && o.store == st.(couples := st.couples[coupleId := st.couples[coupleId].(specialDates := Some(after), updatedAt := Some(now))])
  {
    if coupleId == "" then Outcome(st, Err(CoupleIdRequired))
    else if dateId == AnniversaryId then Outcome(st, Err(AnniversaryNotDeletable))
    else if coupleId !in st.couples then Outcome(st, Err(CoupleNotFound))
    else
      var c := st.couples[coupleId];
      var kept := Filter(DatesOf(c), (d: SpecialDate) => d.id != dateId);
      Outcome(st.(couples := st.couples[coupleId := c.(specialDates := Some(kept), updatedAt := Some(now))]), Ok(()))
  }
}
