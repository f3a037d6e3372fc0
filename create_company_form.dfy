/** The "Add your Company" dialog (src/components/ui/create-company-form.tsx): its schema, the
    project request, and the submission that creates the project first and then uploads the
    logo, if one was chosen, under the new project's id.

    The two service calls and the file reader are parameters: what `createProject` answers,
    what the reader produces and what `uploadFile` answers. zod's URL check is the function
    `isUrl`. */
module CreateCompanyForm {
  import opened Wrappers
  import Text
  import Base64

  /** The chosen logo file. The type is optional because the dialog falls back on a default
      when it is missing; a browser `File` always has a type, the empty text when unknown, so
      that fallback is never taken there. */
  datatype Logo = Logo(name: string, fileType: Option<string>, size: nat)

  datatype CompanyFormValues = CompanyFormValues(
    companyName: string,
    quickSolution: string,
    website: Option<string>,
    foundationDate: string,
    companySector: string,
    companyStage: string,
    country: string,
    city: string,
    about: string,
    startInvestment: string,
    investorsSlots: string,
    annualRevenue: string,
    investmentGoal: string,
    logo: Option<Logo>)

  /** The values the dialog opens with and is reset to; the website field holds empty text. */
  const DefaultValues := CompanyFormValues("", "", Some(""), "", "", "", "", "", "", "", "", "", "", None)

  /** The rules besides the website. */
  predicate FieldsValid(f: CompanyFormValues)
  {
    && |f.companyName| >= 2
    && |f.quickSolution| >= 10
    && |f.companySector| >= 2 && |f.companyStage| >= 2
    && |f.country| >= 2 && |f.city| >= 2
    && |f.about| >= 10
    && |f.startInvestment| >= 1 && |f.investorsSlots| >= 1
    && |f.annualRevenue| >= 1 && |f.investmentGoal| >= 1
  }

  /** `companyFormSchema` as written: an optional website must be a URL whenever present, and
      the empty text of an untouched field is present. */
  predicate SchemaAsWritten(f: CompanyFormValues, isUrl: string -> bool)
  {
    FieldsValid(f) && (f.website.Some? ==> isUrl(f.website.value))
  }

  /** The schema with the website optional as its label shows: empty text counts as no
      website. */
  predicate Schema(f: CompanyFormValues, isUrl: string -> bool)
  {
    FieldsValid(f) && (f.website.Some? && f.website.value != "" ==> isUrl(f.website.value))
  }

  /** As written, a form whose website field was left empty is refused, however well the rest
      is filled in: the URL check rejects empty text. */
  lemma EmptyWebsiteRefused(f: CompanyFormValues, isUrl: string -> bool)
    requires f.website == Some("") && !isUrl("")
    ensures !SchemaAsWritten(f, isUrl)
  {
  }

  /** With the website optional, leaving it empty is the same as not having one, and any
      website that is given must still be a URL. */
  lemma WebsiteOptional(f: CompanyFormValues, isUrl: string -> bool)
    ensures f.website == Some("") ==> (Schema(f, isUrl) <==> SchemaAsWritten(f.(website := None), isUrl))
    ensures f.website.Some? && f.website.value != "" ==> (Schema(f, isUrl) <==> SchemaAsWritten(f, isUrl))
    ensures SchemaAsWritten(f, isUrl) ==> Schema(f, isUrl)
  {
  }

  /** "About" has a lower bound only: text that passes stays accepted however much is
      appended to it. */
  lemma AboutUnbounded(f: CompanyFormValues, isUrl: string -> bool, more: string)
    requires Schema(f, isUrl)
    ensures Schema(f.(about := f.about + more), isUrl)
  {
  }

  // ---------------------------------------------------------------- the two calls

  datatype ProjectRequest = ProjectRequest(
    name: string, quickSolution: string, website: Option<string>, foundationDate: string,
    companySector: string, companyStage: string, country: string, city: string, about: string,
    startInvestment: string, investorsSlots: Option<int>, annualRevenue: string,
    investmentGoal: string)

  /** The body of `createProject`: the form's text fields as they are, the slot count read
      with `parseInt` (`None` is NaN). */
  function RequestOf(f: CompanyFormValues): (r: ProjectRequest)
    ensures r.name == f.companyName && r.website == f.website
    ensures r.investorsSlots == Text.ParseInt(f.investorsSlots)
    ensures r.quickSolution == f.quickSolution && r.foundationDate == f.foundationDate
    ensures r.companySector == f.companySector && r.companyStage == f.companyStage
    ensures r.country == f.country && r.city == f.city && r.about == f.about
    ensures r.startInvestment == f.startInvestment && r.annualRevenue == f.annualRevenue
    ensures r.investmentGoal == f.investmentGoal
  {
    ProjectRequest(f.companyName, f.quickSolution, f.website, f.foundationDate, f.companySector,
                   f.companyStage, f.country, f.city, f.about, f.startInvestment,
                   Text.ParseInt(f.investorsSlots), f.annualRevenue, f.investmentGoal)
  }

  datatype UploadFileRequest = UploadFileRequest(
    idProject: int, name: string, fileType: string, size: string, base64: string)

  const DefaultImageType := "image/jpeg"

  /** The upload for project `id` of a logo whose data URL is `dataUrl`: nothing when the
      text after the first comma is missing or empty. */
  function LogoUpload(id: int, logo: Logo, dataUrl: string): (r: Option<UploadFileRequest>)
    ensures r.Some? <==> Base64.Payload(dataUrl).Some? && Base64.Payload(dataUrl).value != ""
    ensures r.Some? ==>
              r.value.idProject == id && r.value.name == logo.name
              && r.value.fileType == logo.fileType.GetOr(DefaultImageType)
              && Text.AllDigits(r.value.size) && Text.DigitsValue(r.value.size) == logo.size
              && r.value.base64 == Base64.Payload(dataUrl).value && ',' !in r.value.base64
  {
    match Base64.Payload(dataUrl)
    case None => None
    case Some(payload) =>
      if payload == "" then None
      else
        Text.DigitsValueOfDecimal(logo.size);
        Some(UploadFileRequest(id, logo.name, logo.fileType.GetOr(DefaultImageType),
                               Text.NatToDecimal(logo.size), payload))
  }

  /** A logo with no type is uploaded as JPEG; one with a type keeps it, even empty text.
      Only the second case arises for a browser `File`, whose `type` is never missing: the
      `??` fallback does not replace an empty type. */
  lemma UploadType(id: int, logo: Logo, mime: string, payload: string)
    requires ',' !in mime && ',' !in payload && payload != ""
    ensures var r := LogoUpload(id, logo, "data:" + mime + ";base64," + payload);
      && r.Some? && r.value.base64 == payload
      && (logo.fileType.None? ==> r.value.fileType == "image/jpeg")
      && (logo.fileType.Some? ==> r.value.fileType == logo.fileType.value)
  {
    Base64.DataUrlPayload(mime, payload);
  }

  /** What `createProject` answers: the new project's id, or an error. */
  datatype CreateReply = CreatedProject(id: int) | CreateError(message: string)

  /** What the reader produces: its result (`None` when it is not text), or its error message
      (`None` when it has none). */
  datatype LogoRead = LogoLoaded(result: Option<string>) | LogoReadError(message: Option<string>)

  /** What `uploadFile` answers. */
  datatype UploadReply = Uploaded | UploadError(message: string)

  const ConvertFailure := "Failed to convert file to base64"
  const ReadFailure := "Failed to read file"

  /** Why a submission fails. `ResultNotText` is the type error of splitting a reader result
      that is not text. */
  datatype Failure =
    | CreateFailed(message: string)
    | ReadFailed(message: string)
    | ResultNotText
    | ConvertFailed(message: string)
    | UploadFailed(message: string)

  datatype Outcome = Created(id: int) | Failed(failure: Failure)

  datatype Call = CreateProject(request: ProjectRequest) | UploadFile(upload: UploadFileRequest)

  class CompanyDialog {
    var values: CompanyFormValues
    var calls: seq<Call>

    constructor ()
      ensures values == DefaultValues && calls == []
    {
      values, calls := DefaultValues, [];
    }

    /** The user edits the form. */
    method Edit(next: CompanyFormValues)
      modifies this
      ensures values == next && calls == old(calls)
    {
      values := next;
    }

    /** The `mutationFn`: create the project, then, when a logo was chosen, read it and upload
        it under the id just created. The outcome is the created id, or the first failure. */
    method CreateThenUpload(data: CompanyFormValues, created: CreateReply, read: LogoRead,
                            uploaded: UploadReply) returns (outcome: Outcome)
      modifies this
      ensures values == old(values)
      ensures |old(calls)| < |calls| <= |old(calls)| + 2 && calls[..|old(calls)|] == old(calls)
      ensures calls[|old(calls)|] == CreateProject(RequestOf(data))
      ensures |calls| == |old(calls)| + 2 <==>
                created.CreatedProject? && data.logo.Some? && read.LogoLoaded? && read.result.Some?
                && LogoUpload(created.id, data.logo.value, read.result.value).Some?
      ensures |calls| == |old(calls)| + 2 ==>
                calls[|old(calls)| + 1] == UploadFile(LogoUpload(created.id, data.logo.value, read.result.value).value)
      ensures outcome.Created? <==>
                created.CreatedProject? && (data.logo.None? || (|calls| == |old(calls)| + 2 && uploaded.Uploaded?))
      ensures outcome.Created? ==> outcome.id == created.id
      ensures created.CreateError? ==> outcome == Failed(CreateFailed(created.message))
      ensures created.CreatedProject? && data.logo.Some? && read.LogoReadError? ==>
                outcome == Failed(ReadFailed(read.message.GetOr(ReadFailure)))
      ensures created.CreatedProject? && data.logo.Some? && read == LogoLoaded(None) ==>
                outcome == Failed(ResultNotText)
      ensures created.CreatedProject? && data.logo.Some? && read.LogoLoaded? && read.result.Some?
              && LogoUpload(created.id, data.logo.value, read.result.value).None? ==>
                outcome == Failed(ConvertFailed(ConvertFailure))
    {
      calls := calls + [CreateProject(RequestOf(data))];
      if created.CreateError? {
        return Failed(CreateFailed(created.message));
      }
      if data.logo.None? {
        return Created(created.id);
      }
      match read {
        case LogoReadError(message) =>
          outcome := Failed(ReadFailed(message.GetOr(ReadFailure)));
        case LogoLoaded(result) =>
          if result.None? {
            outcome := Failed(ResultNotText);
          } else {
            var upload := LogoUpload(created.id, data.logo.value, result.value);
            if upload.None? {
              outcome := Failed(ConvertFailed(ConvertFailure));
            } else {
              calls := calls + [UploadFile(upload.value)];
              if uploaded.UploadError? {
                outcome := Failed(UploadFailed(uploaded.message));
              } else {
                outcome := Created(created.id);
              }
            }
          }
      }
    }

    /** Submitting the dialog as written: validation by `SchemaAsWritten`, so a dialog whose
        website field was left empty sends nothing, whatever else it holds. */
    method SubmitAsWritten(isUrl: string -> bool, created: CreateReply, read: LogoRead,
                           uploaded: UploadReply)
      returns (outcome: Option<Outcome>)
      modifies this
      ensures outcome.None? <==> !SchemaAsWritten(old(values), isUrl)
      ensures old(values).website == Some("") && !isUrl("") ==> outcome.None?
      ensures outcome.None? ==> values == old(values) && calls == old(calls)
      ensures outcome.Some? ==> |calls| > |old(calls)| && calls[|old(calls)|] == CreateProject(RequestOf(old(values)))
      ensures outcome.Some? && outcome.value.Created? ==> values == DefaultValues
      ensures outcome.Some? && outcome.value.Failed? ==> values == old(values)
    {
      if !SchemaAsWritten(values, isUrl) {
        return None;
      }
      var o := Proceed(created, read, uploaded);
      outcome := Some(o);
    }

    /** Submitting the dialog with the website optional (`Schema`): a form the schema refuses
        sends nothing; otherwise the submission runs. */
    method Submit(isUrl: string -> bool, created: CreateReply, read: LogoRead, uploaded: UploadReply)
      returns (outcome: Option<Outcome>)
      modifies this
      ensures outcome.None? <==> !Schema(old(values), isUrl)
      ensures outcome.None? ==> values == old(values) && calls == old(calls)
      ensures outcome.Some? ==> |calls| > |old(calls)| && calls[|old(calls)|] == CreateProject(RequestOf(old(values)))
      ensures outcome.Some? && outcome.value.Created? ==> values == DefaultValues
      ensures outcome.Some? && outcome.value.Failed? ==> values == old(values)
    {
      if !Schema(values, isUrl) {
        return None;
      }
      var o := Proceed(created, read, uploaded);
      outcome := Some(o);
    }

    /** A validated submission: the `mutationFn` on the current values, and `form.reset()`
        when it succeeds. */
    method Proceed(created: CreateReply, read: LogoRead, uploaded: UploadReply) returns (outcome: Outcome)
      modifies this
      ensures |calls| > |old(calls)| && calls[|old(calls)|] == CreateProject(RequestOf(old(values)))
      ensures outcome.Created? ==> values == DefaultValues
      ensures outcome.Failed? ==> values == old(values)
    {
      outcome := CreateThenUpload(values, created, read, uploaded);
      if outcome.Created? {
        values := DefaultValues;
      }
    }
  }
}
