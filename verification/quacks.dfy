/** Quack counting: the per-user counters (src/firebase/quackService.ts),
    the profile's counter display (src/components/profile/Stats.tsx), the
    clicker (src/components/DuckClicker.tsx) and the streak toggle
    (src/components/Streak.tsx). */
module Quacks {
  import opened Wrappers

  // ---------------------------------------------------------------------------
  // The counter service
  // ---------------------------------------------------------------------------

  /** A `quackCounts/{userId}` document. */
  datatype QuackDoc = QuackDoc(count: int, lastQuack: int)

  type QuackStore = map<string, QuackDoc>

  const NotAuthenticated := "User not authenticated"

  /** The stored count, 0 for a user without a document. */
  function CountOf(store: QuackStore, userId: string): int
  {
    if userId in store then store[userId].count else 0
  }

  /** `incrementQuackCount`: an empty user id is rejected, a zero amount
      writes nothing, and otherwise the amount is added to the user's count
      (starting from 0) and the time of the quack recorded. */
  function Increment(store: QuackStore, userId: string, amount: int, now: int): (r: Result<QuackStore>)
    ensures r.Err? <==> userId == ""
    ensures r.Err? ==> r.error == NotAuthenticated
    ensures r.Ok? && amount == 0 ==> r.value == store
    ensures r.Ok? ==> CountOf(r.value, userId) == CountOf(store, userId) + amount
    ensures r.Ok? ==> forall other :: other != userId ==> (other in r.value <==> other in store)
    ensures r.Ok? ==> forall other :: other in store && other != userId ==> r.value[other] == store[other]
  {
    if userId == "" then Err(NotAuthenticated)
    else if amount == 0 then Ok(store)
    else Ok(store[userId := QuackDoc(CountOf(store, userId) + amount, now)])
  }

  function Sum(amounts: seq<int>): int
  {
    if amounts == [] then 0 else amounts[0] + Sum(amounts[1..])
  }

  /** Increments one after the other, each stamped `now`. */
  function IncrementAll(store: QuackStore, userId: string, amounts: seq<int>, now: int): QuackStore
    requires userId != ""
    decreases |amounts|
  {
    if amounts == [] then store
    else IncrementAll(Increment(store, userId, amounts[0], now).value, userId, amounts[1..], now)
  }

  /** Increments add up: the count grows by the sum of the amounts, and no
      other user's counter changes. */
  lemma {:induction false} IncrementsAdd(store: QuackStore, userId: string, amounts: seq<int>, now: int)
    requires userId != ""
    ensures CountOf(IncrementAll(store, userId, amounts, now), userId) == CountOf(store, userId) + Sum(amounts)
    ensures forall other :: other in store && other != userId ==>
      other in IncrementAll(store, userId, amounts, now) && IncrementAll(store, userId, amounts, now)[other] == store[other]
    decreases |amounts|
  {
    if amounts != [] {
      IncrementsAdd(Increment(store, userId, amounts[0], now).value, userId, amounts[1..], now);
    }
  }

  /** What a listener on `userId` reports: nothing for an empty id (no
      listener is registered), 0 after a listener error or for a missing
      document, and the stored count otherwise. */
  function Reported(store: QuackStore, userId: string, failed: bool): (r: Option<int>)
    ensures r.None? <==> userId == ""
    ensures r.Some? && (failed || userId !in store) ==> r.value == 0
    ensures r.Some? && !failed && userId in store ==> r.value == store[userId].count
  {
    if userId == "" then None
    else if failed then Some(0)
    else Some(CountOf(store, userId))
  }

  // ---------------------------------------------------------------------------
  // The profile's counters
  // ---------------------------------------------------------------------------

  datatype Slot = Mine | Partners

  /** A registered listener: whose count it follows and where it shows it. */
  datatype Listener = Listener(userId: string, slot: Slot)

  datatype Stats = Stats(mine: int, partners: int, streak: int, listeners: seq<Listener>)

  const InitialStats := Stats(0, 0, 0, [])

  /** `user?.uid` as a condition. */
  predicate Present(uid: Option<string>)
  {
    uid.Some? && uid.value != ""
  }

  function ListenerFor(uid: Option<string>, slot: Slot): (r: seq<Listener>)
    ensures |r| <= 1
    ensures r == [] <==> !Present(uid)
    ensures Present(uid) ==> r == [Listener(uid.value, slot)]
  {
    if Present(uid) then [Listener(uid.value, slot)] else []
  }

  /** The effect on `[user, partner]`: a listener for each person present;
      the streak shows the fixed value 10. */
  function Open(s: Stats, user: Option<string>, partner: Option<string>): (r: Stats)
    ensures r.mine == s.mine && r.partners == s.partners && r.streak == 10
    ensures (exists i :: 0 <= i < |r.listeners| && r.listeners[i].slot == Mine) <==> Present(user)
    ensures (exists i :: 0 <= i < |r.listeners| && r.listeners[i].slot == Partners) <==> Present(partner)
    ensures forall i :: 0 <= i < |r.listeners| ==>
      r.listeners[i] == (if r.listeners[i].slot == Mine then Listener(user.value, Mine) else Listener(partner.value, Partners))
  {
    var r := s.(streak := 10, listeners := ListenerFor(user, Mine) + ListenerFor(partner, Partners));
    assert Present(user) ==> r.listeners[0].slot == Mine;
    assert Present(partner) ==> r.listeners[|r.listeners| - 1].slot == Partners;
    r
  }

  /** The effect's cleanup: both listeners are removed (a missing one is a no-op). */
  function Close(s: Stats): (r: Stats)
    ensures r.listeners == [] && r.mine == s.mine && r.partners == s.partners
  {
    s.(listeners := [])
  }

  /** A callback of a registered listener writes its slot; a callback of a
      removed listener changes nothing. */
  function OnCount(s: Stats, l: Listener, count: int): (r: Stats)
    ensures l !in s.listeners ==> r == s
    ensures l in s.listeners && l.slot == Mine ==> r == s.(mine := count)
    ensures l in s.listeners && l.slot == Partners ==> r == s.(partners := count)
  {
    if l !in s.listeners then s
    else if l.slot == Mine then s.(mine := count)
    else s.(partners := count)
  }

  /** After opening, a report from the user's listener shows the user's
      stored count, and leaves the partner's number alone. */
  lemma MineShowsOwnCount(s: Stats, user: string, partner: Option<string>, store: QuackStore)
    requires user != ""
    ensures var listening := Open(s, Some(user), partner);
      var r := OnCount(listening, Listener(user, Mine), Reported(store, user, false).value);
      r.mine == CountOf(store, user) && r.partners == s.partners
  {
    var listening := Open(s, Some(user), partner);
    assert listening.listeners[0] == Listener(user, Mine);
  }

  // ---------------------------------------------------------------------------
  // The clicker
  // ---------------------------------------------------------------------------

  const Quacks := ["Quackz!", "Quackkk!!!", "quacks?", "Qweeekk!", "Quackers!", "Quack.", "Quack...", "Quack Quack", "Quack Attack!"]

  /** The clicker's state; `animating` is the animation lock. */
  datatype Clicker = Clicker(count: nat, text: string, scaled: bool, altImage: bool, muted: bool, spinning: bool, animating: bool)

  const InitialClicker := Clicker(0, "Quackz!", false, false, false, false, false)

  /** `draws` are the random picks, each an index into `Quacks`. */
  predicate ValidDraws(draws: seq<int>)
  {
    forall i :: 0 <= i < |draws| ==> 0 <= draws[i] < |Quacks|
  }

  /** The quack button: a new text is drawn until it differs from the
      shown one, the count goes up by one, and the sound plays unless
      muted. The draws must eventually differ from the shown text. */
  method ButtonQuack(c: Clicker, draws: seq<int>) returns (r: Clicker, plays: bool)
    requires ValidDraws(draws)
    requires exists k :: 0 <= k < |draws| && Quacks[draws[k]] != c.text
    ensures r.count == c.count + 1
    ensures r.text in Quacks && r.text != c.text
    ensures exists k :: 0 <= k < |draws| && r.text == Quacks[draws[k]]
                        && forall j :: 0 <= j < k ==> Quacks[draws[j]] == c.text
    ensures r == c.(count := c.count + 1, text := r.text)
    ensures plays <==> !c.muted
  {
    var k := 0;
    while Quacks[draws[k]] == c.text
      invariant 0 <= k < |draws|
      invariant forall j :: 0 <= j < k ==> Quacks[draws[j]] == c.text
      invariant exists m :: k <= m < |draws| && Quacks[draws[m]] != c.text
      decreases |draws| - k
    {
      k := k + 1;
    }
    r := c.(count := c.count + 1, text := Quacks[draws[k]]);
    plays := !c.muted;
  }

  /** A click on the duck: ignored while the image is missing or the lock
      is held; otherwise it takes the lock and starts the animation. */
  function DuckClick(c: Clicker, hasImage: bool): (r: Clicker)
    ensures r.count == c.count && r.text == c.text
    ensures !hasImage || c.animating ==> r == c
    ensures hasImage && !c.animating ==> r == c.(scaled := true, altImage := true, spinning := true, animating := true)
  {
    if !hasImage || c.animating then c
    else c.(scaled := true, altImage := true, spinning := true, animating := true)
  }

  /** The timeout after a duck click releases the lock and ends the animation. */
  function AnimationEnd(c: Clicker): (r: Clicker)
    ensures r == c.(scaled := false, altImage := false, spinning := false, animating := false)
    ensures !r.animating && r.count == c.count
  {
    c.(scaled := false, altImage := false, spinning := false, animating := false)
  }

  /** The mute button. */
  function ToggleMute(c: Clicker): (r: Clicker)
    ensures r.muted != c.muted
    ensures r.(muted := c.muted) == c
  {
    c.(muted := !c.muted)
  }

  /** Muting is its own undo, and it changes nothing about how the duck takes
      clicks or when its animation ends. */
  lemma ToggleMuteIndependent(c: Clicker, hasImage: bool)
    ensures ToggleMute(ToggleMute(c)) == c
    ensures DuckClick(ToggleMute(c), hasImage) == ToggleMute(DuckClick(c, hasImage))
    ensures AnimationEnd(ToggleMute(c)) == ToggleMute(AnimationEnd(c))
  {
  }

  /** A click during the animation is lost, and after the timeout the duck
      takes clicks again; the count never moves. */
  lemma ClickLockCycle(c: Clicker)
    requires !c.animating
    ensures var once := DuckClick(c, true);
      && once.animating
      && DuckClick(once, true) == once
      && DuckClick(AnimationEnd(once), true).animating
      && AnimationEnd(once).count == c.count
  {
  }

  // ---------------------------------------------------------------------------
  // The streak toggle
  // ---------------------------------------------------------------------------

  datatype Streak = Streak(streaked: bool, streak: int)

  const InitialStreak := Streak(false, 0)

  /** The shown number matches the flag: 100 when streaked, else 0. */
  predicate Consistent(s: Streak)
  {
    s.streak == (if s.streaked then 100 else 0)
  }

  function ClickStreak(s: Streak): (r: Streak)
    ensures r.streaked == !s.streaked
    ensures r.streak == (if s.streaked then 0 else 100)
  {
    Streak(!s.streaked, if s.streaked then 0 else 100)
  }

  /** Clicking keeps the toggle consistent, and two clicks return to the
      state before. */
  lemma StreakRoundTrip(s: Streak)
    requires Consistent(s)
    ensures Consistent(ClickStreak(s))
    ensures ClickStreak(ClickStreak(s)) == s
  {
  }

  lemma InitialStreakConsistent()
    ensures Consistent(InitialStreak)
  {
  }
}
