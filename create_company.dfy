/** The create-company page (src/pages/create-company.tsx): the company form with its FAQ list
    and logo, its schema, the project request built from it, and the country select that
    loads the states of the chosen country.

    Instants are milliseconds; `Date.prototype.toISOString` is supplied from outside as
    `toIso`. The states service is a function from a country id to the list it answers, or
    `None` when the call fails. */
module CreateCompany {
  import opened Wrappers
  import Text
  import Base64
  import Forms

  // ---------------------------------------------------------------- the FAQ list

  datatype Faq = Faq(question: string, answer: string)

  const BlankFaq := Faq("", "")

  /** `list.filter((_, i) => i !== index)`: the list without the entry at position `index`,
      read position by position from `from` on. */
  function KeepOthers<T>(list: seq<T>, index: int, from: nat): (r: seq<T>)
    requires from <= |list|
    ensures |r| <= |list| - from
    decreases |list| - from
  {
    if from == |list| then []
    else (if from != index then [list[from]] else []) + KeepOthers(list, index, from + 1)
  }

  function DropIndex<T>(list: seq<T>, index: int): (r: seq<T>)
  {
    KeepOthers(list, index, 0)
  }

  /** Filtering by position removes exactly the entry at `index` and keeps the rest in order;
      an index outside the list removes nothing. */
  lemma DropIndexIsSlice<T>(list: seq<T>, index: int)
    ensures 0 <= index < |list| ==> DropIndex(list, index) == list[..index] + list[index + 1..]
    ensures !(0 <= index < |list|) ==> DropIndex(list, index) == list
  {
    KeepOthersIsSlice(list, index, 0);
    assert list[0..] == list;
    if 0 <= index < |list| {
      assert list[0..index] == list[..index];
    }
  }

  lemma {:induction false} KeepOthersIsSlice<T>(list: seq<T>, index: int, from: nat)
    requires from <= |list|
    ensures from <= index < |list| ==> KeepOthers(list, index, from) == list[from..index] + list[index + 1..]
    ensures !(from <= index < |list|) ==> KeepOthers(list, index, from) == list[from..]
    decreases |list| - from
  {
    if from < |list| {
      KeepOthersIsSlice(list, index, from + 1);
      assert list[from..] == [list[from]] + list[from + 1..];
      if from < index < |list| {
        assert list[from..index] == [list[from]] + list[from + 1..index];
      }
    }
  }

  /** Adding a question and then deleting it gives the list back. */
  lemma AddThenRemove(list: seq<Faq>)
    ensures DropIndex(list + [BlankFaq], |list|) == list
  {
    DropIndexIsSlice(list + [BlankFaq], |list|);
    assert (list + [BlankFaq])[..|list|] == list;
  }

  /** The `companyFaq` field of the form, which the schema lets be absent. */
  class FaqEditor {
    var companyFaq: Option<seq<Faq>>

    /** The form opens with one blank question. */
    constructor ()
      ensures companyFaq == Some([BlankFaq])
    {
      companyFaq := Some([BlankFaq]);
    }

    function Questions(): seq<Faq>
      reads this
    {
      companyFaq.GetOr([])
    }

    /** "Add Question": a blank entry is appended to the current list (an absent list counts
        as empty). */
    method Add()
      modifies this
      ensures companyFaq == Some(old(Questions()) + [BlankFaq])
      ensures |Questions()| == |old(Questions())| + 1
    {
      companyFaq := Some(Questions() + [BlankFaq]);
    }

    /** The trash button of entry `index`: that entry is dropped, the others keep their
        order. */
    method Remove(index: int)
      modifies this
      ensures companyFaq == Some(DropIndex(old(Questions()), index))
      ensures 0 <= index < |old(Questions())| ==>
        Questions() == old(Questions())[..index] + old(Questions())[index + 1..]
    {
      DropIndexIsSlice(Questions(), index);
      companyFaq := Some(DropIndex(Questions(), index));
    }
  }

  // ---------------------------------------------------------------- the logo

  /** The `banner` value: `base64` is `None` when the reader's result held no payload. */
  datatype Banner = Banner(name: string, fileType: string, size: nat, base64: Option<string>)

  /** The logo input: with no file chosen nothing changes; otherwise the field becomes the
      file's name, type and size with the extracted payload once `fileToBase64` resolves, and
      stays as it was when it rejects. */
  function ChooseLogo(current: Option<Banner>, file: Option<Base64.File>, read: Base64.ReadOutcome): (r: Option<Banner>)
    ensures file.None? || read.ReadFailed? ==> r == current
    ensures file.Some? && read.Loaded? ==>
              r.Some? && r.value.name == file.value.name
              && r.value.fileType == file.value.fileType && r.value.size == file.value.size
    ensures file.Some? && read.Loaded? && read.result.Some? ==>
      r.value.base64 == Base64.Payload(read.result.value)
  {
    match (file, Base64.FileToBase64(read))
    case (None, _) => current
    case (Some(_), Rejected(_)) => current
    case (Some(f), Resolved(payload)) => Some(Banner(f.name, f.fileType, f.size, payload))
  }

  // ---------------------------------------------------------------- the form and its schema

  datatype CompanyForm = CompanyForm(
    companyName: string,
    banner: Option<Banner>,
    quickSolution: string,
    webSite: Option<string>,
    foundationDate: int,
    companySector: string,
    companyStage: string,
    country: string,
    city: string,
    about: string,
    startInvestment: string,
    investorSlots: string,
    annualRevenue: string,
    investmentGoal: string,
    equity: Option<string>,
    companyFaq: Option<seq<Faq>>)

  /** The values the form opens with at instant `now`. */
  function DefaultForm(now: int): CompanyForm
  {
    CompanyForm("", Some(Banner("", "", 0, Some(""))), "", Some(""), now, "", "", "", "",
                "", "", "", "", "", Some(""), Some([BlankFaq]))
  }

  /** `companyFormSchema`. A banner, when present, needs every field, so one whose payload
      could not be extracted is refused. */
  predicate CompanySchema(f: CompanyForm)
  {
    && |f.companyName| >= 2
    && (f.banner.Some? ==> f.banner.value.base64.Some?)
    && |f.quickSolution| >= 10
    && |f.companySector| >= 2
    && |f.companyStage| >= 2
    && |f.country| >= 1
    && |f.city| >= 1
    && 10 <= |f.about| <= 280
    && |f.startInvestment| >= 1
    && |f.investorSlots| >= 1
    && |f.annualRevenue| >= 1
    && |f.investmentGoal| >= 1
  }

  /** The form as it opens cannot be submitted, and a logo whose payload is missing blocks
      submission whatever else is filled in. */
  lemma SchemaRefusals(now: int, f: CompanyForm)
    ensures !CompanySchema(DefaultForm(now))
    ensures f.banner.Some? && f.banner.value.base64.None? ==> !CompanySchema(f)
  {
  }

  // ---------------------------------------------------------------- the project request

  datatype BannerPayload = BannerPayload(name: string, fileType: string, size: string, base64: string)

  datatype ProjectRequest = ProjectRequest(
    name: string,
    banner: BannerPayload,
    quickSolution: string,
    webSite: Option<string>,
    foundationDate: string,
    companySector: string,
    companyStage: string,
    country: string,
    city: string,
    about: string,
    startInvestment: string,
    investorSlots: Option<int>,
    annualRevenue: string,
    investmentGoal: string,
    equity: Option<string>,
    companyFaq: seq<Faq>)

  const DefaultImageType := "image/jpeg"

  /** The banner part of the request: each field of the form's banner, and when the form has
      none, empty text with the JPEG type. */
  function BannerPayloadOf(banner: Option<Banner>): (r: BannerPayload)
    ensures banner.None? ==> r == BannerPayload("", DefaultImageType, "", "")
    ensures banner.Some? ==>
              r.name == banner.value.name && r.fileType == banner.value.fileType
              && Text.AllDigits(r.size) && Text.DigitsValue(r.size) == banner.value.size
              && r.base64 == banner.value.base64.GetOr("")
  {
    match banner
    case None => BannerPayload("", DefaultImageType, "", "")
    case Some(b) =>
      Text.DigitsValueOfDecimal(b.size);
      BannerPayload(b.name, b.fileType, Text.NatToDecimal(b.size), b.base64.GetOr(""))
  }

  /** The calendar day of an ISO timestamp: the text before its first `T`. */
  function DayOf(iso: string): (r: string)
    ensures 'T' !in r && |r| <= |iso| && r == iso[..|r|]
    ensures |r| < |iso| ==> iso[|r|] == 'T'
  {
    Text.FirstPiece(iso, 'T');
    Text.Split(iso, 'T')[0]
  }

  /** An ISO timestamp written as day, `T`, time gives back its day. */
  lemma DayOfTimestamp(day: string, time: string)
    requires 'T' !in day
    ensures DayOf(day + "T" + time) == day
  {
    Text.SplitAtSeparator(day, time, 'T');
  }

  /** The body of `createProject`. */
  function RequestOf(f: CompanyForm, toIso: int -> string): (r: ProjectRequest)
    ensures r.name == f.companyName
    ensures r.banner == BannerPayloadOf(f.banner)
    ensures r.foundationDate == DayOf(toIso(f.foundationDate))
    ensures r.investorSlots == Text.ParseInt(f.investorSlots)
    ensures r.companyFaq == f.companyFaq.GetOr([])
    ensures r.webSite == f.webSite && r.equity == f.equity
    ensures r.quickSolution == f.quickSolution && r.companySector == f.companySector
    ensures r.companyStage == f.companyStage && r.country == f.country && r.city == f.city
    ensures r.about == f.about && r.startInvestment == f.startInvestment
    ensures r.annualRevenue == f.annualRevenue && r.investmentGoal == f.investmentGoal
  {
    ProjectRequest(f.companyName, BannerPayloadOf(f.banner), f.quickSolution, f.webSite,
                   DayOf(toIso(f.foundationDate)), f.companySector, f.companyStage, f.country,
                   f.city, f.about, f.startInvestment, Text.ParseInt(f.investorSlots),
                   f.annualRevenue, f.investmentGoal, f.equity, f.companyFaq.GetOr([]))
  }

  /** A slot count typed as a plain numeral reaches the service as that number. */
  lemma SlotsReachService(f: CompanyForm, toIso: int -> string, n: int)
    requires f.investorSlots == Text.IntToDecimal(n)
    ensures RequestOf(f, toIso).investorSlots == Some(n)
  {
    Text.ParseIntOfDecimal(n, "");
    assert Text.IntToDecimal(n) + "" == Text.IntToDecimal(n);
  }

  // ---------------------------------------------------------------- country and states

  /** What `fetchStates(countryName)` loads: the states the service answers for the first
      country with that name, and the empty list when no country has it or the call fails. */
  function StatesFor(countries: seq<Forms.Country>, countryName: string,
                     stateList: int -> Option<seq<string>>): (r: Option<seq<string>>)
    ensures Forms.FindByName(countries, countryName).None? ==> r.None?
    ensures Forms.FindByName(countries, countryName).Some? ==>
      r == stateList(Forms.FindByName(countries, countryName).value.id)
  {
    match Forms.FindByName(countries, countryName)
    case None => None
    case Some(c) => stateList(c.id)
  }

  /** The country select's change handler: the country is stored, the city emptied and the
      states of the new country loaded. */
  method SelectCountry(fields: Forms.LocationFields, picker: Forms.StatesPicker,
                       countries: seq<Forms.Country>, value: string,
                       stateList: int -> Option<seq<string>>)
    modifies fields, picker
    ensures fields.country == value && fields.city == ""
    ensures picker.states == StatesFor(countries, value, stateList).GetOr([])
    ensures !picker.isLoadingStates
    ensures picker.loadingHistory == old(picker.loadingHistory) + [true, false]
  {
    fields.SelectCountry(value);
    picker.Load(StatesFor(countries, value, stateList));
  }

  /** An unknown country name loads no states, whatever the service would answer. */
  lemma UnknownCountryLoadsNothing(countries: seq<Forms.Country>, name: string,
                                   stateList: int -> Option<seq<string>>)
    requires forall k :: 0 <= k < |countries| ==> countries[k].name != name
    ensures StatesFor(countries, name, stateList).GetOr([]) == []
  {
  }
}
