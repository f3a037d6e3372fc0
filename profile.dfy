/** The profile page (src/pages/profile.tsx): which profile it loads, its two edit forms and
    their schemas, the banner upload, the location line and the country/state selects.

    The reader's `onload` result, the outcome of the upload call and the state service are
    parameters; what the page shows is recorded as a sequence of events. */
module Profile {
  import opened Wrappers
  import opened Session
  import Text
  import Base64
  import Forms
  import Api
  import Login

  // ---------------------------------------------------------------- loading and access

  /** The profile query: disabled unless a user type is stored (null and "" are both falsy);
      when enabled, the endpoint chosen from that type. */
  function ProfileQuery(storage: map<string, string>): (r: Option<string>)
    ensures r.None? <==> !HasNonEmpty(storage, UserTypeKey)
    ensures r.Some? ==> (r.value == "/entrepreneur" <==> storage[UserTypeKey] == "ENTREPRENEUR")
    ensures r.Some? ==> r.value == "/entrepreneur" || r.value == "/investor"
  {
    if HasNonEmpty(storage, UserTypeKey) then Some(Api.ProfileEndpoint(storage[UserTypeKey])) else None
  }

  /** Signing in stores the tokens but never the user type, so right after a login from a
      fresh tab the profile query stays disabled and the page shows no profile. */
  lemma NoProfileAfterFreshLogin(data: Login.LoginResponse)
    ensures ProfileQuery(Login.SessionAfterLogin(map[], data)).None?
  {
    Login.LoginStoresTokensOnly(map[], data);
  }

  /** The access check on mount: without an access token the page navigates to the login
      page; otherwise nothing happens. */
  method CheckAuth(b: Browser)
    modifies b
    ensures b.storage == old(b.storage)
    ensures !HasNonEmpty(old(b.storage), AccessTokenKey) ==>
      b.location == LoginPath && b.trace == old(b.trace) + [PushRoute(LoginPath)]
    ensures HasNonEmpty(old(b.storage), AccessTokenKey) ==>
      b.location == old(b.location) && b.trace == old(b.trace)
  {
    if !HasNonEmpty(b.storage, AccessTokenKey) {
      b.RouterPush(LoginPath);
    }
  }

  // ---------------------------------------------------------------- the edit forms

  datatype InvestorProfileForm = InvestorProfileForm(
    firstName: string, lastName: string, mobileFone: string, fiscalCode: string,
    country: string, city: string, about: Option<string>)

  datatype EntrepreneurProfileForm = EntrepreneurProfileForm(
    firstName: string, lastName: string, country: string, city: string,
    companyRole: string, companyName: string, fiscalCode: string, mobileFone: string,
    about: Option<string>)

  /** `investorFormSchema`. */
  predicate InvestorProfileValid(f: InvestorProfileForm)
  {
    && |f.firstName| >= 2 && |f.lastName| >= 2
    && |f.mobileFone| >= 1 && |f.fiscalCode| >= 1
    && |f.country| >= 1 && |f.city| >= 1
  }

  /** `entrepreneurFormSchema`. */
  predicate EntrepreneurProfileValid(f: EntrepreneurProfileForm)
  {
    && |f.firstName| >= 2 && |f.lastName| >= 2
    && |f.country| >= 1 && |f.city| >= 1
    && |f.companyRole| >= 1 && |f.companyName| >= 1
    && |f.fiscalCode| >= 1 && |f.mobileFone| >= 1
  }

  /** The fields the two forms share. */
  function SharedFields(f: EntrepreneurProfileForm): InvestorProfileForm
  {
    InvestorProfileForm(f.firstName, f.lastName, f.mobileFone, f.fiscalCode, f.country, f.city, f.about)
  }

  /** The entrepreneur schema is the investor schema plus a company role and name. */
  lemma EntrepreneurSchemaExtendsInvestor(f: EntrepreneurProfileForm)
    ensures EntrepreneurProfileValid(f) <==>
      InvestorProfileValid(SharedFields(f)) && f.companyRole != "" && f.companyName != ""
  {
  }

  /** Where a saved form is sent: the entrepreneur form to "/entrepreneur", the investor
      form to "/investor", the same paths the profile is read from. */
  function UpdatePath(isEntrepreneurForm: bool): (r: string)
    ensures r == Api.ProfileEndpoint(if isEntrepreneurForm then "ENTREPRENEUR" else "INVESTOR")
  {
    if isEntrepreneurForm then "/entrepreneur" else "/investor"
  }

  // ---------------------------------------------------------------- the location line

  /** JavaScript truthiness of a nullable string. */
  predicate Truthy(s: Option<string>) { s.Some? && s.value != "" }

  const NotSpecified := "Not specified"

  /** "city, country" when both are present and non-empty, "Not specified" otherwise. */
  function LocationLabel(city: Option<string>, country: Option<string>): (r: string)
    ensures ',' in r <==> Truthy(city) && Truthy(country)
    ensures !(Truthy(city) && Truthy(country)) ==> r == NotSpecified
    ensures Truthy(city) && Truthy(country) ==>
      |r| == |city.value| + 2 + |country.value| && r[..|city.value|] == city.value
      && r[|city.value| + 2..] == country.value
  {
    if Truthy(city) && Truthy(country) then
      var r := city.value + ", " + country.value;
      assert r[|city.value|] == ',';
      r
    else NotSpecified
  }

  // ---------------------------------------------------------------- country and states

  /** The country select's change handler: the option's value is the country id as text,
      the city is emptied and the states are requested for `parseInt` of that text (`None`
      is `NaN`); a failed call leaves no states. */
  method SelectCountry(fields: Forms.LocationFields, picker: Forms.StatesPicker, value: string,
                       stateList: Option<int> -> Option<seq<string>>)
    modifies fields, picker
    ensures fields.country == value && fields.city == ""
    ensures picker.states == stateList(Text.ParseInt(value)).GetOr([])
    ensures !picker.isLoadingStates
    ensures picker.loadingHistory == old(picker.loadingHistory) + [true, false]
  {
    fields.SelectCountry(value);
    picker.Load(stateList(Text.ParseInt(value)));
  }

  /** The option of the country with id `id` requests exactly that country's states. */
  lemma OptionRequestsItsCountry(id: int)
    ensures Text.ParseInt(Text.IntToDecimal(id)) == Some(id)
  {
    Text.ParseIntOfDecimal(id, "");
    assert Text.IntToDecimal(id) + "" == Text.IntToDecimal(id);
  }

  // ---------------------------------------------------------------- the banner upload

  /** The body of the banner upload call. */
  datatype UploadPayload = UploadPayload(name: string, fileType: string, size: string, base64: string)

  /** The upload built from what the reader produced: nothing when the result is not text,
      or its text after the first comma is missing or empty. */
  function BannerUpload(file: Base64.File, result: Option<string>): (r: Option<UploadPayload>)
    ensures r.Some? <==> result.Some? && Base64.Payload(result.value).Some?
                         && Base64.Payload(result.value).value != ""
    ensures r.Some? ==>
              r.value.name == file.name && r.value.fileType == file.fileType
              && Text.AllDigits(r.value.size) && Text.DigitsValue(r.value.size) == file.size
              && r.value.base64 == Base64.Payload(result.value).value
              && r.value.base64 != "" && ',' !in r.value.base64
  {
    match result
    case None => None
    case Some(text) =>
      match Base64.Payload(text)
      case None => None
      case Some(payload) =>
        if payload == "" then None
        else
          Text.DigitsValueOfDecimal(file.size);
          Some(UploadPayload(file.name, file.fileType, Text.NatToDecimal(file.size), payload))
  }

  /** A data URL with a non-empty payload uploads that payload. */
  lemma DataUrlUploads(file: Base64.File, mime: string, payload: string)
    requires ',' !in mime && ',' !in payload && payload != ""
    ensures BannerUpload(file, Some("data:" + mime + ";base64," + payload)).Some?
    ensures BannerUpload(file, Some("data:" + mime + ";base64," + payload)).value.base64 == payload
  {
    Base64.DataUrlPayload(mime, payload);
  }

  /** What the page shows and does. `Posted` records whether the upload flag was raised when
      the upload call went out. */
  datatype PageEvent =
    | FlagRaised
    | FlagLowered
    | Notice(message: string)
    | Posted(payload: UploadPayload, whileUploading: bool)
    | Refetched

  const ProcessFailure := "Failed to process image"
  const UploadSuccess := "Banner uploaded successfully!"

  /** The reader's `onload` handler, with the flag as it stands when it runs. `read` is the
      reader's result (`None` when it never loads); `succeeded` is the upload call's outcome;
      a failed call is an unhandled rejection and shows nothing. */
  function OnLoadEvents(file: Base64.File, read: Option<Option<string>>, succeeded: bool,
                        flag: bool): (r: seq<PageEvent>)
    ensures read.None? ==> r == []
    ensures read.Some? && BannerUpload(file, read.value).None? ==> r == [Notice(ProcessFailure)]
    ensures read.Some? && BannerUpload(file, read.value).Some? ==>
              |r| >= 1 && r[0] == Posted(BannerUpload(file, read.value).value, flag)
              && (succeeded <==> Refetched in r)
    ensures forall k :: 0 <= k < |r| && r[k].Posted? ==> r[k].whileUploading == flag
  {
    match read
    case None => []
    case Some(result) =>
      match BannerUpload(file, result)
      case None => [Notice(ProcessFailure)]
      case Some(payload) =>
        [Posted(payload, flag)] + (if succeeded then [Notice(UploadSuccess), Refetched] else [])
  }

  class ProfilePage {
    var isEditing: bool
    var isUploadingBanner: bool
    var events: seq<PageEvent>

    constructor ()
      ensures !isEditing && !isUploadingBanner && events == []
    {
      isEditing, isUploadingBanner, events := false, false, [];
    }

    /** The Edit/Cancel button of the profile view. */
    method ToggleEditing()
      modifies this
      ensures isEditing == !old(isEditing)
      ensures isUploadingBanner == old(isUploadingBanner) && events == old(events)
    {
      isEditing := !isEditing;
    }

    /** A profile update settles: on success the page leaves edit mode, on failure it stays. */
    method UpdateSettled(succeeded: bool)
      modifies this
      ensures isEditing == (old(isEditing) && !succeeded)
      ensures isUploadingBanner == old(isUploadingBanner) && events == old(events)
    {
      if succeeded {
        isEditing := false;
      }
    }

    method RaiseFlag()
      modifies this
      ensures isUploadingBanner && isEditing == old(isEditing)
      ensures events == old(events) + [FlagRaised]
    {
      isUploadingBanner := true;
      events := events + [FlagRaised];
    }

    method LowerFlag()
      modifies this
      ensures !isUploadingBanner && isEditing == old(isEditing)
      ensures events == old(events) + [FlagLowered]
    {
      isUploadingBanner := false;
      events := events + [FlagLowered];
    }

    /** The `onload` handler. */
    method OnLoad(file: Base64.File, read: Option<Option<string>>, succeeded: bool)
      modifies this
      ensures isUploadingBanner == old(isUploadingBanner) && isEditing == old(isEditing)
      ensures events == old(events) + OnLoadEvents(file, read, succeeded, old(isUploadingBanner))
    {
      if read.None? {
        return;
      }
      var upload := BannerUpload(file, read.value);
      if upload.None? {
        events := events + [Notice(ProcessFailure)];
        return;
      }
      events := events + [Posted(upload.value, isUploadingBanner)];
      if succeeded {
        events := events + [Notice(UploadSuccess), Refetched];
      }
    }

    /** `handleBannerUpload` as written: the `try` block only installs the `onload` handler,
        so its `finally` lowers the flag before the handler runs and the upload goes out
        with the flag already down. */
    method UploadBanner(file: Option<Base64.File>, read: Option<Option<string>>, succeeded: bool)
      modifies this
      ensures isEditing == old(isEditing)
      ensures file.None? ==> isUploadingBanner == old(isUploadingBanner) && events == old(events)
      ensures file.Some? ==>
                !isUploadingBanner
                && events == old(events) + [FlagRaised, FlagLowered] + OnLoadEvents(file.value, read, succeeded, false)
    {
      if file.None? {
        return;
      }
      RaiseFlag();
      LowerFlag();
      OnLoad(file.value, read, succeeded);
    }

    /** The banner upload with the flag kept raised until the `onload` handler is done, as
        the "Uploading..." label and the disabled input it drives call for. */
    method UploadBannerHeld(file: Option<Base64.File>, read: Option<Option<string>>, succeeded: bool)
      modifies this
      ensures isEditing == old(isEditing)
      ensures file.None? ==> isUploadingBanner == old(isUploadingBanner) && events == old(events)
      ensures file.Some? ==>
                !isUploadingBanner
                && events == old(events) + [FlagRaised] + OnLoadEvents(file.value, read, succeeded, true) + [FlagLowered]
    {
      if file.None? {
        return;
      }
      RaiseFlag();
      OnLoad(file.value, read, succeeded);
      LowerFlag();
    }
  }

  /** As written, a banner that is read and uploaded goes out while the page already shows
      the flag as lowered (the label reads "Change Banner" and the input is enabled again). */
  lemma UploadGoesOutUnflagged(file: Base64.File, mime: string, payload: string, succeeded: bool)
    requires ',' !in mime && ',' !in payload && payload != ""
    ensures var es := [FlagRaised, FlagLowered]
                      + OnLoadEvents(file, Some(Some("data:" + mime + ";base64," + payload)), succeeded, false);
      es[2].Posted? && !es[2].whileUploading && es[1] == FlagLowered
  {
    DataUrlUploads(file, mime, payload);
  }

  /** With the flag held, every upload goes out while the flag is raised, and the flag is
      lowered only after the handler's last event. */
  lemma HeldUploadIsFlagged(file: Base64.File, read: Option<Option<string>>, succeeded: bool)
    ensures var es := [FlagRaised] + OnLoadEvents(file, read, succeeded, true) + [FlagLowered];
      && (forall k :: 0 <= k < |es| && es[k].Posted? ==> es[k].whileUploading)
      && es[|es| - 1] == FlagLowered
      && (forall k :: 0 <= k < |es| - 1 ==> es[k] != FlagLowered)
  {
    var mid := OnLoadEvents(file, read, succeeded, true);
    var es := [FlagRaised] + mid + [FlagLowered];
    forall k | 0 <= k < |es| - 1
      ensures es[k] != FlagLowered
    {
      if k > 0 {
        assert es[k] == mid[k - 1];
      }
    }
    forall k | 0 <= k < |es| && es[k].Posted?
      ensures es[k].whileUploading
    {
      assert 0 < k < |es| - 1;
      assert es[k] == mid[k - 1];
    }
  }
}
