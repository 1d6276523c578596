/** The couple-linking page (src/pages/CoupleLinkingPage.tsx): create a
    couple and show its invite code, or type a partner's code and join. */
module Linking {
  import opened Wrappers
  import opened Text
  import opened Couples

  datatype Mode = Choose | CreateMode | JoinMode

  datatype Page = Page(
    mode: Mode,
    code: string,
    loading: bool,
    generatedCode: string,
    error: string,
    codeGenerated: bool,
    newCoupleId: Option<string>)

  const InitialPage := Page(Choose, "", false, "", "", false, None)

  const NoUserMessage := "User not found, please try logging out and back in."

  /** A handler's result: page state, the store, and the signed-in user held
      by the auth context. */
  datatype Step = Step(page: Page, store: Store, user: Option<User>)

  /** The code field keeps what was typed, upper-cased. */
  function TypeCode(p: Page, typed: string): (r: Page)
    ensures r.code == ToUpperAscii(typed) && |r.code| == |typed|
    ensures r.(code := p.code) == p
  {
    p.(code := ToUpperAscii(typed))
  }

  /** The join button as written: enabled only for exactly six characters. */
  predicate JoinEnabledAsWritten(p: Page)
  {
    |p.code| == 6 && !p.loading
  }

  /** The join button accepting the length codes are generated with. */
  predicate JoinEnabled(p: Page)
  {
    |p.code| == DefaultInviteCodeLength && !p.loading
  }

  /** Typing a generated code never enables the join button as written. */
  lemma GeneratedCodeNeverJoinable(p: Page, draws: seq<nat>)
    requires |draws| == DefaultInviteCodeLength && ValidDraws(draws)
    ensures !JoinEnabledAsWritten(TypeCode(p, InviteCodeOf(draws)))
  {
  }

  /** With the corrected gate a typed generated code enables the button when
      nothing is loading, and the field holds the code exactly. */
  lemma GeneratedCodeJoinable(p: Page, draws: seq<nat>)
    requires |draws| == DefaultInviteCodeLength && ValidDraws(draws)
    requires !p.loading
    ensures JoinEnabled(TypeCode(p, InviteCodeOf(draws)))
    ensures TypeCode(p, InviteCodeOf(draws)).code == InviteCodeOf(draws)
  {
    InviteCodeIsUpperCase(draws);
  }

  /** `handleCreateCouple`. */
  function ClickCreate(p: Page, st: Store, user: Option<User>, draws: seq<nat>, newCoupleId: string,
                       birthdayId: string, now: int): (r: Step)
    requires |draws| == DefaultInviteCodeLength && ValidDraws(draws)
    requires newCoupleId !in st.couples
    ensures user.None? ==> r == Step(p.(error := NoUserMessage), st, user)
    ensures user.Some? ==>
      var o := CreateCouple(st, user, draws, newCoupleId, birthdayId, now);
      && r.store == o.store && r.user == user && !r.page.loading
      && (o.result.Ok? ==> r.page == p.(generatedCode := o.result.value.inviteCode,
                                         newCoupleId := Some(o.result.value.coupleId),
                                         codeGenerated := true, error := "", loading := false))
      && (o.result.Err? ==> r.page == p.(error := o.result.error, loading := false))
  {
    if user.None? then Step(p.(error := NoUserMessage), st, user)
    else
      var o := CreateCouple(st, user, draws, newCoupleId, birthdayId, now);
      match o.result
      case Ok(created) =>
        Step(p.(generatedCode := created.inviteCode, newCoupleId := Some(created.coupleId),
                codeGenerated := true, error := "", loading := false), o.store, user)
      case Err(e) => Step(p.(error := e, loading := false), o.store, user)
  }

  /** `handleContinue`: links the context user to the new couple when both exist. */
  function Continue(p: Page, user: Option<User>): (r: Option<User>)
    ensures user.Some? && p.newCoupleId.Some? && p.newCoupleId.value != "" ==>
      r == Some(user.value.(coupleId := p.newCoupleId))
    ensures !(user.Some? && p.newCoupleId.Some? && p.newCoupleId.value != "") ==> r == user
  {
    if user.Some? && p.newCoupleId.Some? && p.newCoupleId.value != "" then
      Some(user.value.(coupleId := p.newCoupleId))
    else user
  }

  /** `handleJoinCouple`; `first` is the invite-code query's first document. */
  function HandleJoin(p: Page, st: Store, user: Option<User>, first: Option<string>,
                      userBirthdayId: string, partnerBirthdayId: string): (r: Step)
    requires IsQueryAnswer(st, p.code, first)
    ensures user.None? ==> r == Step(p.(error := NoUserMessage), st, user)
    ensures user.Some? ==>
      var o := JoinCoupleByCode(st, p.code, user, first, userBirthdayId, partnerBirthdayId);
      && r.store == o.store && !r.page.loading
      && (o.result.Ok? ==> r.user == Some(user.value.(coupleId := Some(o.result.value))) && r.page == p.(error := "", loading := false))
      && (o.result.Err? ==> r.user == user && r.page == p.(error := o.result.error, loading := false))
  {
    if user.None? then Step(p.(error := NoUserMessage), st, user)
    else
      var o := JoinCoupleByCode(st, p.code, user, first, userBirthdayId, partnerBirthdayId);
      match o.result
      case Ok(id) => Step(p.(error := "", loading := false), o.store, Some(user.value.(coupleId := Some(id))))
      case Err(e) => Step(p.(error := e, loading := false), o.store, user)
  }

  /** Pressing "Join Couple" as written: the button only fires for a
      six-character code while nothing is loading. */
  function ClickJoin(p: Page, st: Store, user: Option<User>, first: Option<string>,
                     userBirthdayId: string, partnerBirthdayId: string): (r: Step)
    requires IsQueryAnswer(st, p.code, first)
    ensures !JoinEnabledAsWritten(p) ==> r == Step(p, st, user)
    ensures JoinEnabledAsWritten(p) && user.None? ==> r == Step(p.(error := NoUserMessage), st, user)
    ensures JoinEnabledAsWritten(p) && user.Some? ==>
      var o := JoinCoupleByCode(st, p.code, user, first, userBirthdayId, partnerBirthdayId);
      && r.store == o.store && !r.page.loading
      && (o.result.Ok? ==> r.user == Some(user.value.(coupleId := Some(o.result.value))) && r.page == p.(error := "", loading := false))
      && (o.result.Err? ==> r.user == user && r.page == p.(error := o.result.error, loading := false))
  {
    if !JoinEnabledAsWritten(p) then Step(p, st, user)
    else HandleJoin(p, st, user, first, userBirthdayId, partnerBirthdayId)
  }

  /** Pressing "Join Couple" behind the corrected gate, which accepts the
      length invite codes are generated with. */
  function ClickJoinCorrected(p: Page, st: Store, user: Option<User>, first: Option<string>,
                              userBirthdayId: string, partnerBirthdayId: string): (r: Step)
    requires IsQueryAnswer(st, p.code, first)
    ensures !JoinEnabled(p) ==> r == Step(p, st, user)
    ensures JoinEnabled(p) && user.None? ==> r == Step(p.(error := NoUserMessage), st, user)
    ensures JoinEnabled(p) && user.Some? ==>
      var o := JoinCoupleByCode(st, p.code, user, first, userBirthdayId, partnerBirthdayId);
      && r.store == o.store && !r.page.loading
      && (o.result.Ok? ==> r.user == Some(user.value.(coupleId := Some(o.result.value))) && r.page == p.(error := "", loading := false))
      && (o.result.Err? ==> r.user == user && r.page == p.(error := o.result.error, loading := false))
  {
    if !JoinEnabled(p) then Step(p, st, user)
    else HandleJoin(p, st, user, first, userBirthdayId, partnerBirthdayId)
  }

  /** As written, one partner creates a couple and the other types the code
      shown: pressing join changes nothing, so the joiner stays unlinked and
      the couple keeps its creator alone. */
  lemma CreateThenJoinAsWritten(st: Store, creator: User, joiner: User, draws: seq<nat>, coupleId: string,
                                b0: string, b1: string, b2: string, now: int, p: Page)
    requires |draws| == DefaultInviteCodeLength && ValidDraws(draws)
    requires coupleId !in st.couples
    requires creator.uid in st.users && joiner.uid in st.users && creator.uid != joiner.uid
    ensures var created := ClickCreate(InitialPage, st, Some(creator), draws, coupleId, b0, now);
      var typed := TypeCode(p, created.page.generatedCode);
      && created.page.codeGenerated
      && IsQueryAnswer(created.store, typed.code, Some(coupleId))
      && var joined := ClickJoin(typed, created.store, Some(joiner), Some(coupleId), b1, b2);
      && joined == Step(typed, created.store, Some(joiner))
      && joined.store.couples[coupleId].userIds == [creator.uid]
  {
    var code := InviteCodeOf(draws);
    var created := ClickCreate(InitialPage, st, Some(creator), draws, coupleId, b0, now);
    GeneratedCodeNeverJoinable(p, draws);
    InviteCodeIsUpperCase(draws);
    assert coupleId in WithInviteCode(created.store.couples, code);
  }

  /** Behind the corrected gate, one partner creates a couple; the other
      types the code shown and presses join. The join succeeds and both profiles name the new couple,
      which then has both as members. */
  lemma CreateThenJoin(st: Store, creator: User, joiner: User, draws: seq<nat>, coupleId: string,
                       b0: string, b1: string, b2: string, now: int, p: Page)
    requires |draws| == DefaultInviteCodeLength && ValidDraws(draws)
    requires coupleId !in st.couples
    requires creator.uid in st.users && joiner.uid in st.users && creator.uid != joiner.uid
    requires !p.loading
    ensures var created := ClickCreate(InitialPage, st, Some(creator), draws, coupleId, b0, now);
      var typed := TypeCode(p, created.page.generatedCode);
      && created.page.codeGenerated
      && IsQueryAnswer(created.store, typed.code, Some(coupleId))
      && var joined := ClickJoinCorrected(typed, created.store, Some(joiner), Some(coupleId), b1, b2);
      && joined.user == Some(joiner.(coupleId := Some(coupleId)))
      && joined.store.users[joiner.uid].coupleId == Some(coupleId)
      && joined.store.users[creator.uid].coupleId == Some(coupleId)
      && joined.store.couples[coupleId].userIds == [creator.uid, joiner.uid]
  {
    var code := InviteCodeOf(draws);
    var created := ClickCreate(InitialPage, st, Some(creator), draws, coupleId, b0, now);
    GeneratedCodeJoinable(p, draws);
    var typed := TypeCode(p, code);
    assert typed.code == code;
    assert coupleId in WithInviteCode(created.store.couples, code);
  }
}
