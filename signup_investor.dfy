/** The investor signup page (src/pages/signup-investor.tsx): its schema, the registration
    payload, the areas picker that shows area ids as text, the range of selectable birth
    dates and the referral token taken from the address.

    Instants are milliseconds since 1970-01-01T00:00:00Z; zod's email check and the date
    formatting are supplied from outside. */
module SignupInvestor {
  import opened Wrappers
  import Text
  import MultiSelect

  datatype InvestorForm = InvestorForm(
    firstName: string,
    lastName: string,
    email: string,
    password: string,
    fiscalCode: string,
    mobileFone: string,
    city: string,
    country: string,
    investmentMinValue: string,
    investmentMaxValue: string,
    investmentNetWorth: string,
    investmentAnnualIncome: string,
    about: Option<string>,
    birthDate: int,
    areas: seq<Option<int>>,   // `None` is NaN
    referralToken: Option<string>)

  /** Every entry is a number (none is NaN). */
  predicate AllNumbers(areas: seq<Option<int>>)
  {
    forall k :: 0 <= k < |areas| ==> areas[k].Some?
  }

  /** `formSchema`. */
  predicate InvestorSchema(f: InvestorForm, emailAccepted: bool)
  {
    && |f.firstName| >= 2 && |f.lastName| >= 2
    && emailAccepted
    && |f.password| >= 8
    && |f.fiscalCode| >= 1 && |f.mobileFone| >= 1
    && |f.city| >= 1 && |f.country| >= 1
    && |f.investmentMinValue| >= 1 && |f.investmentMaxValue| >= 1
    && |f.investmentNetWorth| >= 1 && |f.investmentAnnualIncome| >= 1
    && |f.areas| >= 1 && AllNumbers(f.areas)
  }

  /** With no area picked the form is refused, whatever else it holds. */
  lemma AreasRequired(f: InvestorForm, emailAccepted: bool)
    requires f.areas == []
    ensures !InvestorSchema(f, emailAccepted)
  {
  }

  function Numbers(areas: seq<Option<int>>): (r: seq<int>)
    requires AllNumbers(areas)
    ensures |r| == |areas| && forall k :: 0 <= k < |r| ==> areas[k] == Some(r[k])
  {
    if areas == [] then [] else [areas[0].value] + Numbers(areas[1..])
  }

  datatype RegisterInvestorRequest = RegisterInvestorRequest(
    firstName: string, lastName: string, email: string, password: string,
    fiscalCode: string, mobileFone: string, city: string, country: string,
    investmentMinValue: string, investmentMaxValue: string,
    investmentNetWorth: string, investmentAnnualIncome: string,
    about: Option<string>, birthDate: string, areas: seq<int>, referralToken: Option<string>)

  /** The registration payload, built from data the schema has accepted: every field of the
      form, the birth date formatted as a calendar day, the area ids as numbers. */
  function RegistrationOf(f: InvestorForm, formatDay: int -> string): (r: RegisterInvestorRequest)
    requires AllNumbers(f.areas)
    ensures r.birthDate == formatDay(f.birthDate)
    ensures |r.areas| == |f.areas| && forall k :: 0 <= k < |r.areas| ==> f.areas[k] == Some(r.areas[k])
    ensures r.firstName == f.firstName && r.lastName == f.lastName && r.email == f.email
    ensures r.password == f.password && r.fiscalCode == f.fiscalCode && r.mobileFone == f.mobileFone
    ensures r.city == f.city && r.country == f.country && r.about == f.about
    ensures r.investmentMinValue == f.investmentMinValue && r.investmentMaxValue == f.investmentMaxValue
    ensures r.investmentNetWorth == f.investmentNetWorth
    ensures r.investmentAnnualIncome == f.investmentAnnualIncome
    ensures r.referralToken == f.referralToken
  {
    RegisterInvestorRequest(f.firstName, f.lastName, f.email, f.password, f.fiscalCode,
                            f.mobileFone, f.city, f.country, f.investmentMinValue,
                            f.investmentMaxValue, f.investmentNetWorth, f.investmentAnnualIncome,
                            f.about, formatDay(f.birthDate), Numbers(f.areas), f.referralToken)
  }

  // ---------------------------------------------------------------- the areas picker

  /** `ids.map(String)`: the selection as the picker sees it. */
  function AreaTexts(ids: seq<int>): (r: seq<string>)
    ensures |r| == |ids| && forall k :: 0 <= k < |ids| ==> r[k] == Text.IntToDecimal(ids[k])
  {
    if ids == [] then [] else [Text.IntToDecimal(ids[0])] + AreaTexts(ids[1..])
  }

  /** `values.map(v => Number(v))`: the picker's new selection back in the form. */
  function AreaIds(texts: seq<string>): (r: seq<Option<int>>)
    ensures |r| == |texts| && forall k :: 0 <= k < |texts| ==> r[k] == Text.NumberOf(texts[k])
  {
    if texts == [] then [] else [Text.NumberOf(texts[0])] + AreaIds(texts[1..])
  }

  /** Showing the ids as text and reading them back gives the same ids, none of them NaN. */
  lemma AreaIdsRoundTrip(ids: seq<int>)
    ensures AllNumbers(AreaIds(AreaTexts(ids)))
    ensures Numbers(AreaIds(AreaTexts(ids))) == ids
  {
    var back := AreaIds(AreaTexts(ids));
    forall k | 0 <= k < |ids|
      ensures back[k] == Some(ids[k])
    {
      Text.NumberOfIntToDecimal(ids[k]);
    }
  }

  /** An id is selected exactly when its text is. */
  lemma {:induction false} AreaTextIn(ids: seq<int>, a: int)
    ensures a in ids <==> Text.IntToDecimal(a) in AreaTexts(ids)
  {
    var texts := AreaTexts(ids);
    if Text.IntToDecimal(a) in texts {
      var k :| 0 <= k < |texts| && texts[k] == Text.IntToDecimal(a);
      Text.IntToDecimalInjective(ids[k], a);
    }
  }

  /** Removing an id's text from the texts is removing the id from the ids. */
  lemma {:induction false} AreaTextsWithout(ids: seq<int>, a: int)
    ensures AreaTexts(MultiSelect.Without(ids, a))
         == MultiSelect.Without(AreaTexts(ids), Text.IntToDecimal(a))
  {
    if ids != [] {
      AreaTextsWithout(ids[1..], a);
      assert AreaTexts(ids)[1..] == AreaTexts(ids[1..]);
      if ids[0] != a {
        if Text.IntToDecimal(ids[0]) == Text.IntToDecimal(a) {
          Text.IntToDecimalInjective(ids[0], a);
        }
      }
    }
  }

  lemma {:induction false} AreaTextsAppend(ids: seq<int>, a: int)
    ensures AreaTexts(ids + [a]) == AreaTexts(ids) + [Text.IntToDecimal(a)]
  {
    if ids != [] {
      AreaTextsAppend(ids[1..], a);
      assert (ids + [a])[1..] == ids[1..] + [a];
    }
  }

  /** Clicking the option of area `a` toggles `a` in the form's list of ids: it is dropped
      when selected and appended otherwise, and no entry becomes NaN. */
  lemma ToggleArea(ids: seq<int>, a: int)
    ensures var next := if a in ids then MultiSelect.Without(ids, a) else ids + [a];
      && MultiSelect.Toggle(AreaTexts(ids), Text.IntToDecimal(a)) == AreaTexts(next)
      && AllNumbers(AreaIds(AreaTexts(next)))
      && Numbers(AreaIds(AreaTexts(next))) == next
  {
    AreaTextIn(ids, a);
    AreaTextsWithout(ids, a);
    AreaTextsAppend(ids, a);
    AreaIdsRoundTrip(if a in ids then MultiSelect.Without(ids, a) else ids + [a]);
  }

  // ---------------------------------------------------------------- birth date and referral

  /** `new Date("1900-01-01")`: a date-only ISO text is read as midnight UTC, 25567 days
      before the epoch. */
  const MinBirthDate: int := -2208988800000

  /** The calendar disables every day after now and every day before 1900-01-01. */
  predicate Selectable(date: int, now: int)
  {
    !(date > now || date < MinBirthDate)
  }

  /** The selectable days are exactly the range from 1900-01-01 to now, both included, so
      none is selectable when now is before 1900. */
  lemma SelectableRange(date: int, now: int)
    ensures Selectable(date, now) <==> MinBirthDate <= date <= now
    ensures now < MinBirthDate ==> !Selectable(date, now)
    ensures MinBirthDate <= now ==> Selectable(now, now) && Selectable(MinBirthDate, now)
  {
  }

  /** The referral token the form opens with: the `referralToken` query parameter, or empty
      text without one. */
  function ReferralDefault(query: map<string, string>): (r: string)
    ensures "referralToken" in query ==> r == query["referralToken"]
    ensures "referralToken" !in query ==> r == ""
  {
    if "referralToken" in query then query["referralToken"] else ""
  }
}
