/**
 * The pure rules of the affiliates API: the annual fee tier of an age, the age of
 * a birth date at a given instant, and the projection used for listings.
 */
module AffiliatesHelpers {
  import opened Calendar
  import opened AffiliateSchema

  /** `findQueryProjection`: the paths a listing returns. */
  const FindQueryProjection: set<Field> := {FirstName, LastName, FullName, Dni, Age, UsdAnnualFee}

  /**
   * A listed document holds exactly `_id` and the summary paths, with the document's
   * values.
   */
  lemma ListingProjection(a: Affiliate)
    ensures Project(a, FindQueryProjection).Keys == {Id, FirstName, LastName, FullName, Dni, Age, UsdAnnualFee}
    ensures PhoneNumber !in Project(a, FindQueryProjection) && Gender !in Project(a, FindQueryProjection)
    ensures BirthDate !in Project(a, FindQueryProjection)
    ensures Project(a, FindQueryProjection)[Id] == Key(a.id)
    ensures Project(a, FindQueryProjection)[FullName] == Text(a.firstName + " " + a.lastName)
    ensures Project(a, FindQueryProjection)[Age] == Number(a.age)
  {
  }

  /**
   * `ageFromBornDate(bornDate)` evaluated at the instant `now`: 0 for a date that is not
   * a calendar date, otherwise `now.diff(born, 'year')`, the whole years between the two,
   * truncated toward zero (so negative for a birth date a year or more in the future).
   */
  function AgeFromBornDate(born: Date, now: Date): (age: int)
    ensures !ValidDate(born) ==> age == 0
    ensures ValidDate(born) && OnOrBefore(born, now) ==>
              age >= 0 && OnOrBefore(AddYears(born, age), now) && !OnOrBefore(AddYears(born, age + 1), now)
    ensures ValidDate(born) && !OnOrBefore(born, now) ==>
              age <= 0 && OnOrBefore(now, AddYears(born, age)) && !OnOrBefore(now, AddYears(born, age - 1))
  {
    if !ValidDate(born) then 0
    else if OnOrBefore(born, now) then WholeYears(born, now)
    else -WholeYears(now, born)
  }

  /** A date that is not a calendar date has age 0. */
  lemma AgeOfInvalidDate(born: Date, now: Date)
    requires !ValidDate(born)
    ensures AgeFromBornDate(born, now) == 0
  {
  }

  /**
   * For a birth date not after `now`, the age is the number of birthdays that have
   * passed: the `age`-th anniversary is not after `now` and the next one is; no other
   * number has that property.
   */
  lemma AgeIsCompletedYears(born: Date, now: Date, k: int)
    requires ValidDate(born) && OnOrBefore(born, now)
    ensures AgeFromBornDate(born, now) >= 0
    ensures OnOrBefore(AddYears(born, AgeFromBornDate(born, now)), now)
    ensures !OnOrBefore(AddYears(born, AgeFromBornDate(born, now) + 1), now)
    ensures OnOrBefore(AddYears(born, k), now) && !OnOrBefore(AddYears(born, k + 1), now)
            ==> k == AgeFromBornDate(born, now)
  {
    WholeYearsIsAnniversaryCount(born, now, k);
  }

  /** The age is negative exactly for a birth date at least one year after `now`. */
  lemma NegativeAgeIff(born: Date, now: Date)
    requires ValidDate(born)
    ensures AgeFromBornDate(born, now) < 0 <==> OnOrBefore(AddYears(now, 1), born)
  {
    if !OnOrBefore(born, now) {
      WholeYearsIsAnniversaryCount(now, born, 1);
    }
  }

  /**
   * `calculateUsdAnnualFee(age)`: 15 for ages 0 to 50, 20 for 51 to 70, 25 for 71 to 90,
   * and 30 for everything else (91 and over, and negative ages).
   */
  function CalculateUsdAnnualFee(age: int): (fee: int)
    ensures fee in {15, 20, 25, 30}
  {
    if age >= 0 && age <= 50 then 15
    else if age >= 51 && age <= 70 then 20
    else if age >= 71 && age <= 90 then 25
    else 30
  }

  /** Each fee belongs to exactly one age band. */
  lemma FeeTiers(age: int)
    ensures CalculateUsdAnnualFee(age) == 15 <==> 0 <= age <= 50
    ensures CalculateUsdAnnualFee(age) == 20 <==> 51 <= age <= 70
    ensures CalculateUsdAnnualFee(age) == 25 <==> 71 <= age <= 90
    ensures CalculateUsdAnnualFee(age) == 30 <==> age < 0 || age >= 91
  {
  }

  /** Over non-negative ages, an older affiliate never pays less. */
  lemma FeeMonotone(a: int, b: int)
    requires 0 <= a <= b
    ensures CalculateUsdAnnualFee(a) <= CalculateUsdAnnualFee(b)
  {
  }

  /** The band edges. */
  lemma FeeBoundaries()
    ensures CalculateUsdAnnualFee(50) == 15 && CalculateUsdAnnualFee(51) == 20
    ensures CalculateUsdAnnualFee(70) == 20 && CalculateUsdAnnualFee(71) == 25
    ensures CalculateUsdAnnualFee(90) == 25 && CalculateUsdAnnualFee(91) == 30
    ensures CalculateUsdAnnualFee(-1) == 30
  {
  }
}
