/** The profile questionnaire (src/components/UserInfoModal.tsx): assembling
    and checking the birthdate and anniversary chosen from day, month and
    year selects, and the ranges those selects offer. */
module UserInfo {
  import opened Wrappers
  import opened Calendar

  /** The form. A select holds `None` until something is chosen; every
      option is a number. */
  datatype Fields = Fields(
    displayName: string,
    birthDay: Option<int>,
    birthMonth: Option<int>,
    birthYear: Option<int>,
    relationshipStatus: string,
    anniversaryDay: Option<int>,
    anniversaryMonth: Option<int>,
    anniversaryYear: Option<int>,
    meetStory: string)

  /** What `onSubmit` receives. A date is given by the arguments passed to
      `new Date(year, monthIndex, day)`. */
  datatype ProfileData = ProfileData(
    displayName: string,
    birthdate: Option<Date>,
    relationshipStatus: string,
    anniversary: Option<Date>,
    meetStory: string)

  const InvalidBirthdate := "Please enter a valid birthdate."
  const InvalidAnniversary := "Please enter a valid anniversary date."

  /** Day, month and year all chosen. */
  predicate Chosen(d: Option<int>, m: Option<int>, y: Option<int>)
  {
    d.Some? && m.Some? && y.Some?
  }

  /** The date built from three chosen selects, or none. */
  function Assemble(d: Option<int>, m: Option<int>, y: Option<int>): (r: Option<Date>)
    ensures r.Some? <==> Chosen(d, m, y)
    ensures r.Some? ==> r.value == Date(y.value, m.value - 1, d.value)
  {
    if Chosen(d, m, y) then Some(Date(y.value, m.value - 1, d.value)) else None
  }

  /** A chosen date is rejected when the built date's day of month differs
      from the chosen day. */
  predicate Rejected(d: Option<int>, m: Option<int>, y: Option<int>)
  {
    Chosen(d, m, y) && !KeepsDay(y.value, m.value, d.value)
  }

  /** `handleSubmit`. */
  function Submit(f: Fields, isPartner: bool): (r: Result<ProfileData>)
    ensures Rejected(f.birthDay, f.birthMonth, f.birthYear) ==> r == Err(InvalidBirthdate)
    ensures (!Rejected(f.birthDay, f.birthMonth, f.birthYear) && !isPartner
             && Rejected(f.anniversaryDay, f.anniversaryMonth, f.anniversaryYear)) ==> r == Err(InvalidAnniversary)
    ensures r.Ok? <==> !Rejected(f.birthDay, f.birthMonth, f.birthYear)
                       && (isPartner || !Rejected(f.anniversaryDay, f.anniversaryMonth, f.anniversaryYear))
    ensures r.Ok? ==> r.value == ProfileData(f.displayName, Assemble(f.birthDay, f.birthMonth, f.birthYear),
                                             f.relationshipStatus,
                                             Assemble(f.anniversaryDay, f.anniversaryMonth, f.anniversaryYear),
                                             f.meetStory)
  {
    var birthdate := Assemble(f.birthDay, f.birthMonth, f.birthYear);
    if Rejected(f.birthDay, f.birthMonth, f.birthYear) then Err(InvalidBirthdate)
    else
      var anniversary := Assemble(f.anniversaryDay, f.anniversaryMonth, f.anniversaryYear);
      if !isPartner && Rejected(f.anniversaryDay, f.anniversaryMonth, f.anniversaryYear) then Err(InvalidAnniversary)
      else Ok(ProfileData(f.displayName, birthdate, f.relationshipStatus, anniversary, f.meetStory))
  }

  // ---------------------------------------------------------------------------
  // Select options
  // ---------------------------------------------------------------------------

  /** Strictly decreasing. */
  predicate Descending(s: seq<int>)
  {
    forall i :: 0 <= i < |s| - 1 ==> s[i] > s[i + 1]
  }

  predicate Ascending(s: seq<int>)
  {
    forall i :: 0 <= i < |s| - 1 ==> s[i] < s[i + 1]
  }

  /** The years offered for a birthdate: from ten to eighty years back, newest first. */
  function BirthYears(currentYear: int): (r: seq<int>)
    ensures |r| == 71 && Descending(r)
    ensures forall y :: y in r <==> currentYear - 80 <= y <= currentYear - 10
    ensures r[0] == currentYear - 10
  {
    var r := seq(71, i requires 0 <= i < 71 => currentYear - 10 - i);
    forall y | currentYear - 80 <= y <= currentYear - 10
      ensures y in r
    {
      assert r[currentYear - 10 - y] == y;
    }
    r
  }

  /** The years offered for an anniversary: this year and the 79 before. */
  function AnniversaryYears(currentYear: int): (r: seq<int>)
    ensures |r| == 80 && Descending(r)
    ensures forall y :: y in r <==> currentYear - 79 <= y <= currentYear
    ensures r[0] == currentYear
  {
    var r := seq(80, i requires 0 <= i < 80 => currentYear - i);
    forall y | currentYear - 79 <= y <= currentYear
      ensures y in r
    {
      assert r[currentYear - y] == y;
    }
    r
  }

  /** 1 through `n` in order. */
  function OneTo(n: nat): (r: seq<int>)
    ensures |r| == n && Ascending(r)
    ensures forall x :: x in r <==> 1 <= x <= n
  {
    var r := seq(n, i requires 0 <= i < n => i + 1);
    forall x | 1 <= x <= n
      ensures x in r
    {
      assert r[x - 1] == x;
    }
    r
  }

  const MonthOptions: seq<int> := OneTo(12)
  const DayOptions: seq<int> := OneTo(31)

  /** A birthdate picked from the offered options is accepted exactly when
      the day exists in that month of that year. */
  lemma OfferedBirthdateAccepted(f: Fields, isPartner: bool, currentYear: int)
    requires f.birthDay.Some? && f.birthDay.value in DayOptions
    requires f.birthMonth.Some? && f.birthMonth.value in MonthOptions
    requires f.birthYear.Some? && f.birthYear.value in BirthYears(currentYear)
    requires currentYear >= 180
    ensures Submit(f, isPartner) != Err(InvalidBirthdate) <==>
      f.birthDay.value <= DaysInMonth(f.birthYear.value, f.birthMonth.value)
  {
    KeepsDayInRange(f.birthYear.value, f.birthMonth.value, f.birthDay.value);
  }

  /** A partner's anniversary is never checked: 31 February passes through. */
  lemma PartnerAnniversaryUnchecked(f: Fields)
    requires !Rejected(f.birthDay, f.birthMonth, f.birthYear)
    requires f.anniversaryDay == Some(31) && f.anniversaryMonth == Some(2) && f.anniversaryYear.Some?
    ensures Submit(f, true).Ok?
    ensures Submit(f, true).value.anniversary == Some(Date(f.anniversaryYear.value, 1, 31))
    ensures Submit(f, false) == Err(InvalidAnniversary)
  {
    KeepsDayInRange(f.anniversaryYear.value, 2, 31);
  }
}
