# Im-Vestor client core in Dafny

This project models the client-side core of Im-Vestor, a Next.js front end where entrepreneurs and
investors sign up, sign in and manage profiles and companies. It covers these parts:

- **The authenticated HTTP client** (`src/lib/api.ts`). A request interceptor attaches
  `Bearer <accessToken>` from session storage. A response interceptor reacts to a 401. It asks
  the refresh endpoint for a new access token, stores it and re-issues the request. When the
  refresh fails, it clears the session and sends the tab to `/login`.
  - `Api.Run` is the specification of one call.
  - `Api.Send` performs the call on a browser tab, one round at a time (`Api.Round`). When
    the interceptor re-issues the request, it goes through the client again. `Api.Send` is
    proved equal to `Api.Run`.
  - Both take the service as a script of replies.
- **Session handling.** `Session.Browser` is the tab: its session storage, its location and the
  trace of effects. The rest of this part is:
  - the login page, which stores the two tokens and goes to `/dashboard`;
  - the header's sign-out;
  - the profile page's access check and its choice of profile endpoint.
- **The forms.**
  - The multi-select toggle.
  - The entrepreneur signup wizard (steps 1 to 4, with registration on leaving step 2).
  - The investor signup. Area ids are shown as text and read back. Birth dates are selectable
    only from 1900-01-01 to now.
  - The create-company page: FAQ list, logo, schema, project request, and country and state
    selects.
  - The profile page: schemas, location line, banner upload and state list.
  - The "Add your Company" dialog, which creates the project and then uploads the logo under
    the new id.
- **Data-URL payload extraction** (`src/utils/base64.ts`): the text after the first comma. This
  is JavaScript's `split(",")[1]`, modelled by `Text.Split` and `Text.Field`.

Pages are modelled as classes whose fields are the React state their setters update. Validation
schemas are predicates. Request bodies are functions of the form values. What comes from outside
is a parameter:

- service answers;
- the file reader's result;
- `toISOString`;
- date formatting;
- zod's e-mail and URL checks.

`parseInt` and `Number` are modelled on decimal text (`Text.ParseInt`, `Text.NumberOf`).

**The retry is not limited to one per request.** Both the `_retry` guard on the request and
the line that would set it are commented out (`src/lib/api.ts:33-35`). A request that keeps answering 401 while refreshes succeed is
therefore refreshed and re-issued without bound. `Api.RefreshesUnbounded` proves this for
every `n`.

The code also never stores the user type at login, although the profile page reads it.
`Profile.NoProfileAfterFreshLogin` shows the consequence: after a login from a fresh tab the
profile query is disabled.

## Model

| member | source | states |
|---|---|---|
| `Session.Browser.constructor` | src/lib/api.ts:13 | the tab starts with the given storage and location and an empty effect trace |
| `Session.Browser.SetItem` | src/lib/api.ts:49 | `sessionStorage.setItem` changes exactly that key, keeps the location and appends the effect |
| `Session.Browser.Clear` | src/lib/api.ts:55 | `sessionStorage.clear` empties the storage and keeps the location |
| `Session.Browser.AssignLocation` | src/lib/api.ts:56 | assigning `window.location.href` changes the location only |
| `Session.Browser.RouterPush` | src/pages/login.tsx:21 | router navigation changes the location only |
| `Session.SignOut` | src/components/header.tsx:20-24 | sign-out leaves an empty session on `/login`, clearing before navigating |
| `Api.WithBearer` | src/lib/api.ts:15 | sets `Authorization` to `Bearer <token>` and leaves every other header and field as it was |
| `Api.AttachToken` | src/lib/api.ts:11-18 | the request carries `Bearer <accessToken>` exactly when the stored token is non-empty; otherwise the config is untouched |
| `Api.ShouldRefresh` | src/lib/api.ts:30-33 | the response interceptor refreshes exactly on status 401 with an original request config; no `_retry` flag is read |
| `Api.RefreshCredentials` | src/lib/api.ts:38-45 | the refresh call carries the stored refresh token, or the text `null` when none is stored |
| `Api.OnError` | src/lib/api.ts:27-62 | the four interceptor transitions, each as an if-and-only-if. A non-refreshable error (not 401, or no config) is rejected unchanged. A successful refresh re-issues the config with the new bearer token. A failed refresh clears the session and redirects |
| `Api.ResponseInterceptor` | src/lib/api.ts:25-63 | the interceptor's effect on the tab. Only the access token changes on success. Storage is emptied and the location set to `/login` on refresh failure. Nothing changes otherwise. The refresh request is issued exactly when the guard holds |
| `Api.Round` | src/lib/api.ts:11-61 | one attempt through both interceptors: a settled round gives exactly the outcome, session, effects, attempt and refresh request of `Api.Run`; after a successful refresh the round hands back the attempt it sent with `Bearer` of the new token, and `Api.Run` of the rest of the replies on that request, preceded by what the round did, is what remains |
| `Api.Send` | src/lib/api.ts:11-63 | attempts, interceptors and re-issued requests (each the rejected attempt with the new bearer token, going through the client again) give exactly the outcome, session, effects, attempts and refresh requests of `Api.Run` |
| `Api.Run` | src/lib/api.ts:11-63 | the specification of one call: attempt with the stored token; on a 401 with a config and a successful refresh, store the new token and re-issue the rejected attempt with `Bearer` of it; otherwise settle as the interceptor decides, with no bound on the rounds |
| `Api.AttemptsAreTheRequest` | src/lib/api.ts:11-52 | every attempt of a call, re-issued ones included, has the verb, URL, body and every header but `Authorization` of the caller's request |
| `Api.FirstReplyDecides` | src/lib/api.ts:26 | a success is passed through unchanged, and so is a non-refreshable error; the session is untouched and only one attempt goes out |
| `Api.RefreshesUnbounded` | src/lib/api.ts:30-35 | `n` consecutive 401s with successful refreshes make `n` refreshes and `n + 1` attempts, for every `n` (the retry guard is commented out) |
| `Api.SessionAfterCall` | src/lib/api.ts:47-58 | the session is cleared exactly when a call rejects with a refresh error, and then the tab is on `/login`; otherwise every key but the access token and the location are preserved |
| `Api.RefreshOnlyOnUnauthorized` | src/lib/api.ts:30-33 | every refresh answers a 401 with a config; every attempt but the last followed a successful refresh; attempts never outnumber replies |
| `Api.RetryCarriesRefreshedToken` | src/lib/api.ts:48-52 | the k-th re-issued attempt carries `Bearer` of the token returned by the (k-1)-th refresh |
| `Api.RetryFailureEscapes` | src/lib/api.ts:52-61 | a failure of the re-issued request that the interceptor does not refresh (any status but 401, or a 401 without a config) reaches the caller unchanged, carrying the re-issued attempt, with the new token kept and nothing cleared |
| `Api.ClearedSessionSendsNoCredentials` | src/lib/api.ts:13-16 | with an empty session requests go out unchanged and a refresh would send `Bearer null` |
| `Api.ProfileEndpoint` | src/lib/api.ts:179-185 | the endpoint is `/entrepreneur` if and only if the type is `ENTREPRENEUR`, `/investor` otherwise |
| `Api.ReferralPath` | src/lib/api.ts:189-192 | the referral path is `/referral/` followed by the e-mail exactly as given |
| `Login.LoginPage.constructor` | src/pages/login.tsx:12-13 | the form starts with empty e-mail and password |
| `Login.LoginPage.SetEmail` | src/pages/login.tsx:12 | editing the e-mail changes only the e-mail |
| `Login.LoginPage.SetPassword` | src/pages/login.tsx:13 | editing the password changes only the password |
| `Login.LoginPage.HandleSubmit` | src/pages/login.tsx:25-28 | the login request is exactly the current e-mail and password |
| `Login.OnSuccess` | src/pages/login.tsx:18-22 | a successful login stores the access token, then the refresh token, then navigates to `/dashboard` |
| `Login.SessionAfterLogin` | src/pages/login.tsx:19-20 | the session after a successful login: the access token and then the refresh token stored over the previous session |
| `Login.Submit` | src/pages/login.tsx:16-28 | the login request goes through the client. On a resolved call the session is the client's plus both tokens and the tab is on `/dashboard`. Otherwise the tab is exactly what the client's interceptors left |
| `Login.LoginConfig` | src/lib/api.ts:157-163 | `authApi.login` posts the request to `/authentication/login` |
| `Login.FailedLoginSession` | src/lib/api.ts:47-58 | a login rejected with a refresh error leaves an empty session on `/login`; any other failed login keeps the location and every key but the access token |
| `Login.UnauthorizedLoginClearsSession` | src/lib/api.ts:30-58 | a login answered 401 whose refresh fails is rejected with the refresh error, clears the session and sends the tab to `/login` |
| `Login.LoginStoresTokensOnly` | src/pages/login.tsx:18-22 | a login writes the two token keys and no other key; in particular the user type is never stored |
| `Login.RequestsAfterLoginCarryToken` | src/pages/login.tsx:19 | after a login with a non-empty token every request carries `Bearer <token>` |
| `MultiSelect.Without` | src/components/ui/multi-select.tsx:26 | the filter removes every occurrence of the value and keeps membership of every other value |
| `MultiSelect.Toggle` | src/components/ui/multi-select.tsx:24-29 | the value ends up selected exactly when it was not; an absent value is appended; a present one is filtered out |
| `MultiSelect.WithoutAppend` | src/components/ui/multi-select.tsx:26 | filtering distributes over concatenation, so order is kept |
| `MultiSelect.WithoutCounts` | src/components/ui/multi-select.tsx:26 | filtering removes exactly the occurrences of the value: the multiset with that value's count set to zero |
| `MultiSelect.WithoutAbsent` | src/components/ui/multi-select.tsx:26 | filtering an absent value changes nothing |
| `MultiSelect.ToggleTwiceAbsent` | src/components/ui/multi-select.tsx:24-29 | toggling an absent value twice restores the selection |
| `MultiSelect.ToggleTwicePresent` | src/components/ui/multi-select.tsx:24-29 | toggling a present value twice moves it, once, to the end |
| `MultiSelect.ToggleTwiceMoves` | src/components/ui/multi-select.tsx:24-29 | a concrete selection where toggling twice is not the identity |
| `SignupEntrepreneur.RegistrationOf` | src/pages/signup-entrepreneur.tsx:62-67 | the registration carries every form field, the birth date formatted, and the skills defaulted to empty |
| `SignupEntrepreneur.FormValid` | src/pages/signup-entrepreneur.tsx:28-40 | the signup schema: names of at least 2 characters, an accepted e-mail, a password of at least 8, a fiscal code and a mobile phone |
| `SignupEntrepreneur.Next` | src/pages/signup-entrepreneur.tsx:94 | Continue advances one step. Back goes one step back, except on step 1 where the step stays. The result stays in 1..4 |
| `SignupEntrepreneur.ContinueLabel` | src/pages/signup-entrepreneur.tsx:316-320 | "Take your pass" on step 3; otherwise "Continue" or "Please fill all the fields" by form validity |
| `SignupEntrepreneur.Walk` | src/pages/signup-entrepreneur.tsx:44 | a run of presses stays within steps 1..4, advances at most one step per press and registers at most once per press |
| `SignupEntrepreneur.StraightThrough` | src/pages/signup-entrepreneur.tsx:306-323 | three Continues from step 1 reach the finish card with one registration |
| `SignupEntrepreneur.BackAndContinueRegistersAgain` | src/pages/signup-entrepreneur.tsx:94 | Back from step 3 and Continue on step 2 submit the registration a second time |
| `SignupEntrepreneur.FinishRequiresRegistration` | src/pages/signup-entrepreneur.tsx:311-314 | the finish card is never reached from steps 1 or 2 without at least one registration |
| `SignupEntrepreneur.Wizard.constructor` | src/pages/signup-entrepreneur.tsx:44 | the wizard starts on step 1 with no registration |
| `SignupEntrepreneur.Wizard.PressBack` | src/pages/signup-entrepreneur.tsx:90-98 | Back moves per `Next` and leaves the wizard exactly on step 1 |
| `SignupEntrepreneur.Wizard.PressContinue` | src/pages/signup-entrepreneur.tsx:306-323 | Continue, enabled only on a valid form with nothing pending, registers exactly on step 2 and always advances |
| `Forms.StatesPicker.constructor` | src/pages/create-company.tsx:99-100 | no states and not loading at first |
| `Forms.StatesPicker.Load` | src/pages/create-company.tsx:170-194 | the states become the list received, or empty on any failure, and the loading flag is raised and then lowered whatever happened |
| `Forms.LocationFields.constructor` | src/pages/create-company.tsx:116-117 | the country and city fields hold their initial values |
| `Forms.LocationFields.SelectCountry` | src/pages/create-company.tsx:438-441 | choosing a country stores it and empties the city |
| `Forms.FindByName` | src/pages/create-company.tsx:174-176 | the first country row with that name, and none exactly when no row has it |
| `Base64.Payload` | src/utils/base64.ts:9 | a payload exists exactly when the data URL holds a comma, and it contains no comma |
| `Base64.PayloadShape` | src/utils/base64.ts:9 | the payload is the text between the first comma and the next one, and a slice of the input |
| `Base64.DataUrlPayload` | src/utils/base64.ts:7-9 | for a `data:<mime>;base64,<payload>` URL the extracted text is the payload |
| `Base64.FileToBase64` | src/utils/base64.ts:1-18 | rejects exactly on a read error, with that error; otherwise resolves with the payload of the result, undefined when there is none |
| `Base64.NoCommaNoPayload` | src/utils/base64.ts:9 | a result without a comma resolves with undefined |
| `Text.Split` | src/utils/base64.ts:9 | splitting yields at least one piece and no piece holds the separator |
| `Text.JoinSplit` | src/utils/base64.ts:9 | joining the pieces with the separator gives back the text |
| `Text.SplitJoin` | src/utils/base64.ts:9 | splitting pieces joined by a separator they lack gives back the pieces |
| `Text.FirstPiece` | src/pages/create-company.tsx:141 | the first piece is the prefix up to the first separator |
| `Text.SecondField` | src/utils/base64.ts:9 | the second piece exists exactly when the separator occurs, and holds no separator |
| `Text.Field` | src/utils/base64.ts:9 | `split(sep)[i]`: the first piece always exists, and no piece holds the separator |
| `Text.NatToDecimal` | src/pages/profile.tsx:235 | `toString` of a size is a non-empty numeral without a leading zero |
| `Text.DigitsValueOfDecimal` | src/pages/profile.tsx:235 | reading the numeral back gives the number |
| `Text.NumberOfIntToDecimal` | src/pages/signup-investor.tsx:351-356 | `Number(String(i)) == i` for every integer |
| `Text.IntToDecimalInjective` | src/pages/signup-investor.tsx:351 | distinct ids have distinct texts |
| `Text.IntToDecimal` | src/pages/signup-investor.tsx:351 | `toString` of an integer is non-empty text |
| `Text.NumberOf` | src/pages/signup-investor.tsx:356 | `Number` of a canonical integer numeral is its value; other text gives `None` |
| `Text.ParseInt` | src/pages/profile.tsx:197 | `parseInt` after leading white space: an optional sign and the longest digit prefix, NaN without digits |
| `Text.ParseIntOfDecimal` | src/pages/profile.tsx:196-198 | `parseInt` of a numeral followed by text that starts with neither a digit nor `x`/`X` gives that number |
| `Text.ParseIntWithoutDigits` | src/components/ui/create-company-form.tsx:81 | text without digits parses to NaN |
| `CreateCompany.DropIndexIsSlice` | src/pages/create-company.tsx:649-656 | filtering by position removes exactly the entry at the index, keeping order, and nothing for an index outside the list |
| `CreateCompany.DropIndex` | src/pages/create-company.tsx:649-656 | removing a question keeps every entry whose position differs from the index |
| `CreateCompany.KeepOthers` | src/pages/create-company.tsx:649-656 | the filter from a position on never yields more entries than it reads |
| `CreateCompany.AddThenRemove` | src/pages/create-company.tsx:649-688 | adding a question and deleting it restores the list |
| `CreateCompany.FaqEditor.constructor` | src/pages/create-company.tsx:124 | the FAQ starts with one blank question |
| `CreateCompany.FaqEditor.Add` | src/pages/create-company.tsx:682-688 | a blank question is appended to the current list, an absent list counting as empty |
| `CreateCompany.FaqEditor.Remove` | src/pages/create-company.tsx:649-656 | the entry at the index is dropped and the rest keep their order |
| `CreateCompany.ChooseLogo` | src/pages/create-company.tsx:226-238 | a chosen file sets name, type, size and the extracted payload; no file or a rejected read leaves the banner as it was |
| `CreateCompany.SchemaRefusals` | src/pages/create-company.tsx:57-93 | the form as it opens is refused, and so is a banner without a payload |
| `CreateCompany.CompanySchema` | src/pages/create-company.tsx:57-93 | the create-company schema: every required field at its minimum length and a banner, if any, with a payload |
| `CreateCompany.BannerPayloadOf` | src/pages/create-company.tsx:132-137 | each banner field is sent with its decimal size; without a banner, empty text and `image/jpeg` |
| `CreateCompany.DayOf` | src/pages/create-company.tsx:141 | the foundation date is the ISO text up to its first `T` |
| `CreateCompany.DayOfTimestamp` | src/pages/create-company.tsx:141 | an ISO timestamp `day` + `T` + `time` yields `day` |
| `CreateCompany.RequestOf` | src/pages/create-company.tsx:129-153 | the project request: every text field as is, the banner payload, the day of the foundation date, `parseInt` of the slots and the FAQ defaulted to empty |
| `CreateCompany.SlotsReachService` | src/pages/create-company.tsx:148 | a slot count typed as a numeral is sent as that number |
| `CreateCompany.StatesFor` | src/pages/create-company.tsx:170-194 | states are requested for the id of the first country with the name, and none are loaded for an unknown name |
| `CreateCompany.SelectCountry` | src/pages/create-company.tsx:436-442 | choosing a country stores it, empties the city and loads that country's states |
| `CreateCompany.UnknownCountryLoadsNothing` | src/pages/create-company.tsx:178-188 | an unknown country name leaves the state list empty |
| `Profile.ProfileQuery` | src/pages/profile.tsx:113-124 | the profile query is disabled exactly when no user type is stored, and otherwise targets the endpoint for that type |
| `Profile.NoProfileAfterFreshLogin` | src/pages/profile.tsx:98-124 | after a login from a fresh tab the profile query is disabled |
| `Profile.CheckAuth` | src/pages/profile.tsx:101-108 | without an access token the page navigates to `/login`, otherwise nothing happens |
| `Profile.EntrepreneurSchemaExtendsInvestor` | src/pages/profile.tsx:69-89 | the entrepreneur schema is exactly the investor schema plus a non-empty company role and name |
| `Profile.InvestorProfileValid` | src/pages/profile.tsx:81-89 | the investor profile schema: names of at least 2 characters and the other required fields non-empty |
| `Profile.EntrepreneurProfileValid` | src/pages/profile.tsx:69-79 | the entrepreneur profile schema: the investor fields it shares plus a company role and name |
| `Profile.UpdatePath` | src/pages/profile.tsx:164-191 | profile edits are sent to the same endpoint the profile is read from |
| `Profile.LocationLabel` | src/pages/profile.tsx:580-582 | "city, country" exactly when both are non-empty, with a comma then, and "Not specified" otherwise |
| `Profile.SelectCountry` | src/pages/profile.tsx:193-207 | choosing a country empties the city and loads the states of `parseInt` of the option value, or none on failure, and the flag ends lowered |
| `Profile.OptionRequestsItsCountry` | src/pages/profile.tsx:419 | the option of country `id` requests the states of `id` |
| `Profile.BannerUpload` | src/pages/profile.tsx:220-237 | an upload exists exactly when the result is text with a non-empty payload after its first comma; it carries the file's name, type, decimal size and that payload |
| `Profile.DataUrlUploads` | src/pages/profile.tsx:225-237 | a data URL with a non-empty payload uploads that payload |
| `Profile.OnLoadEvents` | src/pages/profile.tsx:219-243 | no load shows nothing. An unusable result shows "Failed to process image". Otherwise the upload goes out first, and the profile is refetched exactly when it succeeds |
| `Profile.ProfilePage.constructor` | src/pages/profile.tsx:95-96 | not editing and not uploading at first |
| `Profile.ProfilePage.ToggleEditing` | src/pages/profile.tsx:569-572 | Edit/Cancel flips edit mode and nothing else |
| `Profile.ProfilePage.UpdateSettled` | src/pages/profile.tsx:168-171 | a successful update leaves edit mode; a failed one stays |
| `Profile.ProfilePage.RaiseFlag` | src/pages/profile.tsx:214 | sets the upload flag |
| `Profile.ProfilePage.LowerFlag` | src/pages/profile.tsx:247-249 | clears the upload flag |
| `Profile.ProfilePage.OnLoad` | src/pages/profile.tsx:219-243 | the onload handler appends its events with the flag as it stands |
| `Profile.ProfilePage.UploadBanner` | src/pages/profile.tsx:209-250 | as written: the flag is raised and lowered before the handler runs, so the upload is recorded with the flag down |
| `Profile.ProfilePage.UploadBannerHeld` | src/pages/profile.tsx:209-250 | corrected: the flag is raised, the handler runs, then the flag is lowered |
| `Profile.UploadGoesOutUnflagged` | src/pages/profile.tsx:212-249 | as written, a readable banner is uploaded after the flag was lowered |
| `Profile.HeldUploadIsFlagged` | src/pages/profile.tsx:277-285 | with the flag held, every upload goes out while the flag is raised, and the flag is lowered only at the end |
| `SignupInvestor.AreasRequired` | src/pages/signup-investor.tsx:44 | with no area the form is refused |
| `SignupInvestor.InvestorSchema` | src/pages/signup-investor.tsx:27-46 | the investor schema: every required field at its minimum length and at least one area |
| `SignupInvestor.Numbers` | src/pages/signup-investor.tsx:44 | the parsed area ids, position by position |
| `SignupInvestor.RegistrationOf` | src/pages/signup-investor.tsx:79-85 | the registration carries every form field, the formatted birth date and the area ids |
| `SignupInvestor.AreaTexts` | src/pages/signup-investor.tsx:354 | each id shown as its decimal text, position by position |
| `SignupInvestor.AreaIds` | src/pages/signup-investor.tsx:355-357 | each text read back with `Number`, position by position |
| `SignupInvestor.AreaIdsRoundTrip` | src/pages/signup-investor.tsx:354-356 | showing ids as text and reading them back gives the same ids, none NaN |
| `SignupInvestor.AreaTextIn` | src/pages/signup-investor.tsx:354 | an id is selected exactly when its text is |
| `SignupInvestor.AreaTextsWithout` | src/pages/signup-investor.tsx:354-356 | removing an id's text removes the id |
| `SignupInvestor.AreaTextsAppend` | src/pages/signup-investor.tsx:354-356 | appending an id's text appends the id |
| `SignupInvestor.ToggleArea` | src/pages/signup-investor.tsx:347-357 | clicking an area toggles that id in the form's list and never produces NaN |
| `SignupInvestor.SelectableRange` | src/pages/signup-investor.tsx:328-329 | a birth date is selectable exactly from 1900-01-01 to now, inclusive |
| `SignupInvestor.Selectable` | src/pages/signup-investor.tsx:328-329 | a date is selectable unless it is after now or before 1900-01-01 |
| `SignupInvestor.ReferralDefault` | src/pages/signup-investor.tsx:69 | the referral token is the query parameter, or empty text without one |
| `CreateCompanyForm.EmptyWebsiteRefused` | src/components/ui/create-company-form.tsx:31 | as written, a form with the website left empty is refused |
| `CreateCompanyForm.WebsiteOptional` | src/components/ui/create-company-form.tsx:28-43 | corrected schema: an empty website counts as none, a non-empty one must be a URL, and whatever the written schema accepts is still accepted |
| `CreateCompanyForm.AboutUnbounded` | src/components/ui/create-company-form.tsx:37 | "about" has no upper bound |
| `CreateCompanyForm.FieldsValid` | src/components/ui/create-company-form.tsx:28-43 | every field of the dialog's schema but the website at its minimum length |
| `CreateCompanyForm.SchemaAsWritten` | src/components/ui/create-company-form.tsx:28-43 | as written: the fields valid, and a website, whenever present and even empty, a URL |
| `CreateCompanyForm.Schema` | src/components/ui/create-company-form.tsx:28-43 | corrected: the fields valid, and a non-empty website a URL |
| `CreateCompanyForm.RequestOf` | src/components/ui/create-company-form.tsx:70-83 | the project request carries the text fields as they are and `parseInt` of the slots |
| `CreateCompanyForm.LogoUpload` | src/components/ui/create-company-form.tsx:89-104 | an upload exists exactly when the payload after the first comma is non-empty. It names the project id, the logo name, the type or `image/jpeg` when the type is missing, and the decimal size |
| `CreateCompanyForm.UploadType` | src/components/ui/create-company-form.tsx:102 | the JPEG type is used only when the logo has no type; an empty type is kept |
| `CreateCompanyForm.CompanyDialog.constructor` | src/components/ui/create-company-form.tsx:48-64 | the dialog opens with the default values and no calls |
| `CreateCompanyForm.CompanyDialog.Edit` | src/components/ui/create-company-form.tsx:48-64 | editing replaces the values and makes no call |
| `CreateCompanyForm.CompanyDialog.CreateThenUpload` | src/components/ui/create-company-form.tsx:68-116 | The project is created first. The logo is uploaded only with a logo, a created project and a non-empty payload, under the new id. The call succeeds exactly when the create does and any logo is uploaded. Read errors, missing payloads and unreadable results fail with their own messages |
| `CreateCompanyForm.CompanyDialog.Submit` | src/components/ui/create-company-form.tsx:117-146 | corrected: a form refused by `Schema` sends nothing; a valid one is created, and a success resets the form to its defaults |
| `CreateCompanyForm.CompanyDialog.SubmitAsWritten` | src/components/ui/create-company-form.tsx:117-146 | as written: a form refused by `SchemaAsWritten` sends nothing, so an empty website that is no URL blocks the submission; a valid one is created, and a success resets the form |
| `CreateCompanyForm.CompanyDialog.Proceed` | src/components/ui/create-company-form.tsx:67-120 | a validated submission creates the project first, resets the form on success and keeps the values on failure |

## Left out

- Rendering, toasts, console logging and the loading screen are not modelled. Navigation is
  modelled only where it changes the session or the location.
- The axios transport, the network, promises and their interleavings are not modelled. A call is
  modelled as the sequence of answers it receives. Concurrent calls are not modelled: in the
  code each 401 starts its own refresh, and their interleaving is left out.
- The request interceptor's error handler (`src/lib/api.ts:19-21`) is left out: it only re-wraps
  an error that axios raises before any request is made.
- `Api.Run`: when the scripted answers run out before the call settles, the outcome is `Pending`.
  That stands for a call that has not yet settled. It is not a behaviour of the client.
- `FileReader`, `File` and `Date` are parameters: the reader's result or error, file name, type
  and size, and instants as milliseconds. `toISOString` and date-fns `format` are functions
  supplied to the model. The calendar days they produce are not computed.
- zod's e-mail and URL checks are boolean inputs. String lengths are counted in characters of
  the model's strings, not in UTF-16 code units.
- `Text.ParseInt` reads decimal text with ASCII leading white space. Hexadecimal `0x` text,
  Unicode white space and the precision limits of JavaScript numbers are left out.
- `Text.NumberOf` reads only the canonical integer numerals `String` produces. `None` stands for
  every other text, not only for NaN.
- The profile page's form default values, which are taken from the profile before it has
  loaded, are not modelled. Its country list query is not modelled either.
- The rest of the page and component tree is not part of this model. That includes the referral
  page, the countries table's contents and the skills and areas lists.
- The registration calls' success navigation to `/login` and the create-company page's
  navigation to `/profile` are navigation only. They are left out with the other `onSuccess`
  and `onError` toasts.
- `SignupEntrepreneur.Wizard.PressContinue`: the registration's result is not awaited, because
  `mutate` returns nothing to await. The step therefore advances whatever the call returns.

## Findings

| source | as written | input that shows it | evidently intended | confidence | as-written member | corrected member |
|---|---|---|---|---|---|---|
| src/pages/profile.tsx:209-250 | the `finally` block lowers `isUploadingBanner` once `onload` is installed, before the reader loads, so the upload call goes out with the flag down | any image file whose data URL has a non-empty payload, e.g. `data:image/png;base64,AAAA` | the flag stays raised, showing "Uploading..." and disabling the input, until the upload is done | high, from JavaScript's event-loop order; not executed | `Profile.UploadGoesOutUnflagged` (about `Profile.ProfilePage.UploadBanner`) | `Profile.HeldUploadIsFlagged` (about `Profile.ProfilePage.UploadBannerHeld`) |
| src/components/ui/create-company-form.tsx:31 | `website` is `z.string().url().optional()` while its default and an emptied input are `""`, which the URL check rejects | every required field valid and the Website field left empty | an empty website counts as no website; the field is not marked required | high, from zod's URL check on empty text; not executed | `CreateCompanyForm.EmptyWebsiteRefused`, with `CreateCompanyForm.CompanyDialog.SubmitAsWritten` sending nothing for that form | `CreateCompanyForm.WebsiteOptional`, with `CreateCompanyForm.CompanyDialog.Submit` validating by `CreateCompanyForm.Schema` |
