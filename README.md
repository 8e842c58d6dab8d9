# eShop core services — a Dafny model

This project models the decision-making core of an eShop web shop built from several services.

- **Integration-event outbox** (`IntegrationEventLogEF`). Each integration event is written as a log row inside the database transaction that raised it. The pending rows of a transaction are later read back, oldest first, and deserialized. Each row then moves through its publication states; every start of a publish attempt is counted.
- **Catalog API** (`Catalog.API`):
  - the lookup of one catalog item by id;
  - paged catalog queries, filtered by type and brand, ordered by name, with total counts;
  - the composable filter builder behind those queries;
  - the picture endpoint's MIME-type table;
  - the seeding of an empty catalog database from a JSON file of items.
- **Web client URI builder** (`WebAppComponents`): the relative URI the storefront requests for a page of catalog items.
- **Identity service** (`Identity.API`):
  - OpenID Connect authorization-endpoint decisions: login challenge, consent, sign-in and refusal;
  - token exchange and the choice of token each claim goes into;
  - the profile service's issued claims and its "is the user still active" test;
  - external-provider login: challenge, user lookup, auto-provisioning claims, and the session id and id token kept for sign-out;
  - the local login page and its model;
  - the redirect-URI extraction;
  - the security response headers;
  - the native-client and loading-page helpers.
- **OpenAPI document transformers** (`eShop.ServiceDefaults`):
  - authorization responses and security requirements;
  - deprecation flags;
  - the `api-version` parameter text;
  - schema nullability;
  - the HTML document description and version info.
- **Argument guards** (`Common`): checks that throw `ArgumentException` or `ArgumentNullException`.

Each source file of the core is one Dafny module. Small shared modules hold the common pieces:

| module | holds |
|---|---|
| `Wrappers` | `Option`, `Result` and `Outcome` |
| `Text` | white space, prefix and suffix tests, search, replace, split and join, integer formatting and parsing |
| `Int32` | C# `int` wrap-around |
| `Collections` | distinctness and de-duplication |
| `Claims` | claim records and a mutable claim list |
| `Http` | a mutable HTTP response |

Code that mutates objects is modelled as classes whose methods change what their `modifies` clause names:

- the log entry and the log service;
- the filter builders;
- the claim lists;
- the login view model;
- the OpenAPI operation, parameter, schema and info objects;
- the HTTP response.

Expression-bodied code is modelled as functions with lemmas about them. Every loop of the source is a method with a loop and its invariants, proved against a function that states its meaning.

Everything outside the process is an explicit input:

- **Database contents:** tables as sequences in storage order.
- **Identity store:** users by id, external logins by (provider, user id).
- **Clock readings:** `now` values.
- **Framework predicates:** `Url.IsLocalUrl`, `IsValidReturnUrl`, `HtmlDecode`, JSON (de)serialisation and database-generated ids are function parameters.
- **Sign-in results:** booleans.

## Differences from the documentation

Where the code and the accompanying documentation differ, the model follows the code.

- `OpenApiOptionExtensions.BuildDescription` ignores its `description` argument. It writes each `<li><a href="…"` item without closing the tag with `>`. Both are reproduced.
- `RedirectService.ExtractRedirectUriFromReturnUrl` takes the text between the first `redirect_uri=` and the first `signin-oidc` (or `scope`) after it. It is modelled with that split behaviour and shown equal to a positional reference definition.
- In `ExternalController.AutoProvisionUserAsync` the `??` picks the JWT `name` claim when it is present, even when it is blank. A blank JWT `name` therefore hides a usable `ClaimTypes.Name` claim. `BlankJwtNameHidesClaimTypesName` states this.
- The claim list's `Remove` in `FindUserFromExternalProviderAsync` removes one occurrence: the first claim equal to the user-id claim. The model removes at that index.

## Model

| member | source | states |
|---|---|---|
| ParameterCheck.IsNotNullOrWhitespace | src/Common/Helper/ParameterCheckHelper.cs:13-19 | passes exactly when the text is present and has a non-white-space character; otherwise fails with `ArgumentException(errorMsg)` |
| ParameterCheck.IsNotNull | src/Common/Helper/ParameterCheckHelper.cs:27-33 | fails exactly on null, with `ArgumentNullException(errorMsg)` |
| ParameterCheck.IsNotNullOrWhitespaceCases | src/Common/Helper/ParameterCheckHelper.cs:15-18 | null, empty and all-white-space texts are refused; text with a letter passes |
| EventLogEntry.IntegrationEventLogEntry.Empty | src/IntegrationEventLogEF/Model/IntegrationEventLogEntry.cs:21-25 | the parameterless entry has empty type name and content, default ids and time, not published, zero attempts |
| EventLogEntry.IntegrationEventLogEntry.New | src/IntegrationEventLogEF/Model/IntegrationEventLogEntry.cs:32-42 | refuses an event whose type name is null or blank (`ArgumentException`); otherwise a fresh entry copies the event's id, time, type name and serialized content, records the transaction, and starts not published with zero attempts |
| EventLogEntry.IntegrationEventLogEntry.ShortNameShape | src/IntegrationEventLogEF/Model/IntegrationEventLogEntry.cs:59 | the short name is the dot-free suffix after the last '.', the whole name when there is no '.' |
| EventLogEntry.IntegrationEventLogEntry.DeserializeJsonContent | src/IntegrationEventLogEF/Model/IntegrationEventLogEntry.cs:98-102 | returns this same entry with `IntegrationEvent` set to the decoded value, which is null when the content reads as `null` or as something other than an integration event; only a JSON error (an exception in the source) fails, and it changes nothing |
| EventLogService.EventTypeNames | src/IntegrationEventLogEF/Services/IntegrationEventLogService.cs:29-32 | the discovered event types are exactly the loaded type names ending in "IntegrationEvent" |
| EventLogService.IntegrationEventLogService.constructor | src/IntegrationEventLogEF/Services/IntegrationEventLogService.cs:24-33 | the service works on the given table, with the discovered event types |
| EventLogService.OrderByCreatedTime | src/IntegrationEventLogEF/Services/IntegrationEventLogService.cs:47 | the result is sorted by creation time and is a permutation of the rows |
| EventLogService.OrderByKeepsRows | src/IntegrationEventLogEF/Services/IntegrationEventLogService.cs:47 | ordering neither adds nor loses a row |
| EventLogService.FindEntry | src/IntegrationEventLogEF/Services/IntegrationEventLogService.cs:113-114 | finds the first row with the id, or reports that no row has it |
| EventLogService.PendingRows | src/IntegrationEventLogEF/Services/IntegrationEventLogService.cs:42-44 | keeps exactly the rows of the transaction that are not published |
| EventLogService.PendingRowsMembers | src/IntegrationEventLogEF/Services/IntegrationEventLogService.cs:43 | membership in the pending rows is "in the table and pending for the transaction", both directions |
| EventLogService.PendingRowsUnique | src/IntegrationEventLogEF/Services/IntegrationEventLogService.cs:42-44 | filtering keeps event ids unique |
| EventLogService.RetrievedRows | src/IntegrationEventLogEF/Services/IntegrationEventLogService.cs:42-54 | a retrieval returns every pending row of the transaction once, nothing else, earliest first |
| EventLogService.IntegrationEventLogService.CollectPending | src/IntegrationEventLogEF/Services/IntegrationEventLogService.cs:42-44 | the loop over the table collects the pending rows of the transaction |
| EventLogService.IntegrationEventLogService.ResolveEvents | src/IntegrationEventLogEF/Services/IntegrationEventLogService.cs:48-53 | fails exactly when some row's short type name is unknown or its content is not valid JSON for that type; on success every row holds its decoded event, possibly null |
| EventLogService.IntegrationEventLogService.RetrieveEventLogsPendingToPublish | src/IntegrationEventLogEF/Services/IntegrationEventLogService.cs:40-58 | returns the pending rows ordered by creation time, each deserialized; fails exactly when one row cannot be resolved; no pending rows gives the empty list; rows outside the result are untouched |
| EventLogService.IntegrationEventLogService.SaveEvent | src/IntegrationEventLogEF/Services/IntegrationEventLogService.cs:66-73 | a null transaction, a blank type name or a repeated id fails and adds nothing; otherwise exactly one fresh, not-published entry for the event and transaction is appended, and ids stay unique |
| EventLogService.IntegrationEventLogService.UpdateEventState | src/IntegrationEventLogEF/Services/IntegrationEventLogService.cs:111-123 | a missing id fails (`ArgumentNullException`); otherwise the entry takes the new state, and its attempt counter grows by one (32-bit wrap) only for `InPublishProgress`; no other entry changes |
| EventLogService.IntegrationEventLogService.MarkEventAsPublished | src/IntegrationEventLogEF/Services/IntegrationEventLogService.cs:80-83 | the entry becomes `Published` with its attempt count kept |
| EventLogService.IntegrationEventLogService.MarkEventAsInPublishProgress | src/IntegrationEventLogEF/Services/IntegrationEventLogService.cs:90-93 | the entry becomes `InPublishProgress` and counts one more attempt |
| EventLogService.IntegrationEventLogService.MarkEventAsPublishedFailed | src/IntegrationEventLogEF/Services/IntegrationEventLogService.cs:100-103 | the entry becomes `PublishedFailed` with its attempt count kept |
| Int32.Inc | src/IntegrationEventLogEF/Services/IntegrationEventLogService.cs:119 | `SentTimes++` adds one, and wraps from the largest `int` to the smallest |
| Int32.Mul | src/Catalog.API/Apis/CatalogApi.cs:180 | `PageSize * PageIndex` is the product whenever it fits in an `int` |
| CatalogModel.DefaultRequest | src/Catalog.API/Model/PaginationRequest.cs:10-18 | an omitted page request means page size 10, page index 0 |
| FilterBuilder.CombineFiltersAccepts | src/Catalog.API/Helper/Builder/FilterBuilder.cs:40-47 | the combined filter accepts an entity exactly when both filters do |
| FilterBuilder.AppendShrinks | src/Catalog.API/Helper/Builder/FilterBuilder.cs:29-32 | adding a filter accepts exactly what the old filters and the new one both accept |
| FilterBuilder.FilterBuilder.constructor | src/Catalog.API/Helper/Builder/FilterBuilder.cs:16 | a new builder has no filters |
| FilterBuilder.FilterBuilder.Add | src/Catalog.API/Helper/Builder/FilterBuilder.cs:16 | the filter is appended to the list |
| FilterBuilder.FilterBuilder.Build | src/Catalog.API/Helper/Builder/FilterBuilder.cs:22-34 | the built condition accepts exactly what every added filter accepts; no filters gives accept-all, one filter gives that filter |
| CatalogFilterBuilder.CatalogFilterBuilder.WithTypeId | src/Catalog.API/Helper/Builder/CatalogFilterBuilder.cs:13-20 | a type id appends a type-id filter, a null one changes nothing; returns the same builder |
| CatalogFilterBuilder.CatalogFilterBuilder.WithBrandId | src/Catalog.API/Helper/Builder/CatalogFilterBuilder.cs:27-34 | a brand id appends a brand-id filter, a null one changes nothing; returns the same builder |
| CatalogFilterBuilder.BuildCondition | src/Catalog.API/Apis/CatalogApi.cs:171-174 | the condition accepts a catalog exactly when it has the given type id and brand id (each only if given) |
| CatalogApi.FirstWithId | src/Catalog.API/Apis/CatalogApi.cs:72-74 | finds the first catalog with the id, or reports there is none |
| CatalogApi.GetCatalogById | src/Catalog.API/Apis/CatalogApi.cs:64-80 | an id ≤ 0 is a bad request with the fixed detail; otherwise the first catalog with the id is returned, or not found exactly when none has it |
| CatalogApi.Where | src/Catalog.API/Apis/CatalogApi.cs:175-178 | keeps exactly the accepted catalogs |
| CatalogApi.WhereCounts | src/Catalog.API/Apis/CatalogApi.cs:175-178 | each accepted catalog keeps its multiplicity; rejected ones vanish |
| CatalogApi.OrderByName | src/Catalog.API/Apis/CatalogApi.cs:179 | sorted by name in ordinal order, and a permutation of its input |
| CatalogApi.Skip | src/Catalog.API/Apis/CatalogApi.cs:180 | drops the first n items; a negative n drops none |
| CatalogApi.Take | src/Catalog.API/Apis/CatalogApi.cs:181 | keeps the first n items; a negative n keeps none |
| CatalogApi.PageIsSlice | src/Catalog.API/Apis/CatalogApi.cs:180-181 | without overflow, a page is the slice from size×index of at most size items |
| CatalogApi.PageOffsetWraps | src/Catalog.API/Apis/CatalogApi.cs:180 | page 65536 of size 65536 wraps to offset 0 and repeats the first page |
| CatalogApi.PageWindow | src/Catalog.API/Apis/CatalogApi.cs:180-181 | every page is a contiguous window of at most `PageSize` items |
| CatalogApi.SortedWindow | src/Catalog.API/Apis/CatalogApi.cs:179-181 | a window of a name-sorted list is name-sorted |
| CatalogApi.PageOfOrdered | src/Catalog.API/Apis/CatalogApi.cs:177-181 | a page taken from the name-ordered rows is itself name-ordered, no longer than the page size or the selection, and holds only selected rows |
| CatalogApi.QueryMeaning | src/Catalog.API/Apis/CatalogApi.cs:168-185 | the total counts all accepted catalogs; the data is a name-sorted window of accepted catalogs; the request's index and size are echoed |
| CatalogApi.QueryAcceptingAll | src/Catalog.API/Apis/CatalogApi.cs:168-185 | with no filter the total is the table size and the data a page of the whole sorted table |
| CatalogApi.GetCatalogByConditionAsync | src/Catalog.API/Apis/CatalogApi.cs:168-185 | the paged answer for the type and brand filter |
| CatalogApi.GetPaginatedCatalogAsync | src/Catalog.API/Apis/CatalogApi.cs:88-92 | counts every catalog and returns a page of the whole name-ordered table |
| CatalogApi.GetPaginatedCatalogByTypeIdAsync | src/Catalog.API/Apis/CatalogApi.cs:101-105 | every returned catalog has the type id and comes from the table |
| CatalogApi.GetPaginatedCatalogByBrandIdAsync | src/Catalog.API/Apis/CatalogApi.cs:114-119 | every returned catalog has the brand id and comes from the table |
| CatalogApi.GetPaginatedCatalogByTypeIdAndBrandIdAsync | src/Catalog.API/Apis/CatalogApi.cs:129-134 | every returned catalog has both ids and comes from the table |
| CatalogApi.GetImageMimeType | src/Catalog.API/Apis/CatalogApi.cs:192-205 | the ten listed extensions map to their image types; anything else is `application/octet-stream` |
| CatalogApi.MimeTypeCases | src/Catalog.API/Apis/CatalogApi.cs:195-196 | only ".jpg" and ".jpeg" give JPEG; matching is case-sensitive; the empty extension is octet-stream |
| CatalogApi.GetExtension | src/Catalog.API/Apis/CatalogApi.cs:154 | the extension is empty or a '.' followed by a non-empty, dot-free, slash-free suffix of the path |
| CatalogApi.ExtensionOfLastDot | src/Catalog.API/Apis/CatalogApi.cs:154 | the extension starts at the last '.' of the file name |
| CatalogApi.GetCatalogPictureById | src/Catalog.API/Apis/CatalogApi.cs:143-158 | not found exactly when no catalog has the id; otherwise the file under "pics" with the MIME type of its extension |
| CatalogApi.WebpPictureType | src/Catalog.API/Apis/CatalogApi.cs:203 | a seeded picture name `<id>.webp` is served as `image/webp` |
| CatalogSeed.BuildSeedData | src/Catalog.API/Infrastructure/CatalogContextSeed.cs:33-92 | the `foreach` over the items computes the fold of the loop step |
| CatalogSeed.StepKeeps | src/Catalog.API/Infrastructure/CatalogContextSeed.cs:40-92 | each step keeps the name sets and lists aligned, names distinct and non-blank, ids distinct, and rows pointing at listed brands and types |
| CatalogSeed.FoldKeepsInvariant | src/Catalog.API/Infrastructure/CatalogContextSeed.cs:40-92 | the loop's result satisfies that invariant, with at most one brand and one type per item |
| CatalogSeed.FoldRowsFromItems | src/Catalog.API/Infrastructure/CatalogContextSeed.cs:72-91 | every seeded row copies the id, name (empty when missing), description and price of some item |
| CatalogSeed.FoldBrandsInFirstOccurrenceOrder | src/Catalog.API/Infrastructure/CatalogContextSeed.cs:44-56 | the brand list is the file's non-blank brand names, each once, in order of first occurrence |
| CatalogSeed.FoldTypesInFirstOccurrenceOrder | src/Catalog.API/Infrastructure/CatalogContextSeed.cs:58-70 | the type list is the file's non-blank type names, each once, in order of first occurrence |
| CatalogSeed.SeedDropsRepeatedBrand | src/Catalog.API/Infrastructure/CatalogContextSeed.cs:72 | two seedable items of one brand with distinct ids: the loop as written seeds only the first |
| CatalogSeed.IntendedSeedsEverySeedableItem | src/Catalog.API/Infrastructure/CatalogContextSeed.cs:40-92 | the corrected loop seeds distinct ids, exactly the ids of the items with non-blank brand and type |
| CatalogSeed.ToDictionary | src/Catalog.API/Infrastructure/CatalogContextSeed.cs:102-106 | the dictionary exists exactly when the names are distinct, and maps each name to its row's id |
| CatalogSeed.AssignIds | src/Catalog.API/Infrastructure/CatalogContextSeed.cs:107-118 | every seeded row gets the ids found for its brand and type names |
| CatalogSeed.AssignedRowIsSaved | src/Catalog.API/Infrastructure/CatalogContextSeed.cs:102-118 | after saving, each row points at the saved id of a brand and a type with its names, other fields unchanged |
| CatalogSeed.SaveAndAssign | src/Catalog.API/Infrastructure/CatalogContextSeed.cs:94-122 | the saved tables are the new lists with generated ids; each row keeps its fields and points at its saved brand and type |
| CatalogSeed.SeedAsync | src/Catalog.API/Infrastructure/CatalogContextSeed.cs:20-124 | skipped exactly when the catalog is not empty or the file does not parse; otherwise the saved brands and types are the loop's lists with generated ids and distinct names, rows have distinct ids and are the loop's rows in order with only their brand and type ids changed, each pointing at the saved id of its brand's and its type's name, and there are no more rows than brands or types or items |
| CatalogSeed.SeedAsyncIntended | src/Catalog.API/Infrastructure/CatalogContextSeed.cs:20-124 | the corrected seeding: same skip rule; exactly the seedable items' ids are seeded, each once, each row the corrected loop's row with only its brand and type ids changed and linked to its saved brand and type |
| CatalogService.GetCatalogItemsUri | src/WebAppComponents/Services/CatalogService.cs:63-77 | the URI starts with `api/catalog/items`; with no filter it is followed directly by the page query |
| CatalogService.FilterRoundTrip | src/WebAppComponents/Services/CatalogService.cs:65-74 | the filter segment parses back to the brand and type it was built from |
| CatalogService.QueryRoundTrip | src/WebAppComponents/Services/CatalogService.cs:76 | the page query parses back to its page index and size |
| CatalogService.ItemsUriRoundTrip | src/WebAppComponents/Services/CatalogService.cs:63-77 | the whole URI parses back to its four arguments |
| CatalogService.ItemsUriInjective | src/WebAppComponents/Services/CatalogService.cs:63-77 | distinct requests give distinct URIs |
| RedirectService.ExtractRedirectUriFromReturnUrl | src/Identity.API/Services/RedirectService.cs:16-34 | the result has no '&'; without `redirect_uri=` in the decoded URL it is empty |
| RedirectService.ExtractAgreesWithPositions | src/Identity.API/Services/RedirectService.cs:16-34 | the split-based extraction equals the text between the first `redirect_uri=` and the next end marker, unescaped |
| RedirectService.UnescapeKeepsPlainAddress | src/Identity.API/Services/RedirectService.cs:31-33 | an address without '%' or '&' passes the unescaping unchanged |
| Claims.FirstIndexOfType | src/Identity.API/Services/ProfileService.cs:43 | the index of the first claim of the type, or none has it |
| Claims.FirstValueOfType | src/Identity.API/Services/ProfileService.cs:60 | `FirstOrDefault(type)?.Value`: present exactly when a claim has the type, and is that claim's value |
| Claims.FirstIndexOfTypeIgnoreCase | src/Identity.API/Controller/ExternalController.cs:129-130 | `ClaimsPrincipal.FindFirst`: the index of the first claim whose type equals the given one ignoring case, or none has such a type |
| Claims.FirstValueOfTypeIgnoreCase | src/Identity.API/Controller/ExternalController.cs:129-130 | `FindFirst(type)?.Value`: present exactly when a claim's type equals the given one ignoring case, and is such a claim's value |
| Claims.IgnoreCaseFindsExact | src/Identity.API/Controller/ExternalController.cs:129-130 | a claim of exactly the type is always found by `FindFirst`, at its position or an earlier one |
| Claims.IgnoreCaseAgreesWithExact | src/Identity.API/Controller/ExternalController.cs:129-130 | when no claim type differs from the wanted one in case only, `FindFirst` and the exact `FirstOrDefault` find the same claim |
| Claims.UpperCaseSubjectFound | src/Identity.API/Controller/ExternalController.cs:129 | a `SUB` claim is found as `sub` by `FindFirst` but not by an exact comparison |
| Claims.FirstOfCaseVariants | src/Identity.API/Controller/ExternalController.cs:129 | of `Sub` followed by `sub`, `FindFirst` takes `Sub`, where an exact comparison takes `sub` |
| Claims.OrElse | src/Identity.API/Controller/ExternalController.cs:158-159 | C# `??`: the first value when present, else the second |
| Claims.ClaimList.Add | src/Identity.API/Services/ProfileService.cs:142 | appends the claim |
| Claims.ClaimList.RemoveAt | src/Identity.API/Controller/ExternalController.cs:133 | removes exactly the claim at the index, keeping the others in order |
| ProfileService.ClaimFor | src/Identity.API/Services/ProfileService.cs:137-143 | at most one claim, present exactly when the value is not blank, with the given type, value and value type |
| ProfileService.AddClaims | src/Identity.API/Services/ProfileService.cs:134-144 | a blank claim type fails and adds nothing; otherwise appends the claim for a non-blank value and nothing for a blank one |
| ProfileService.GetClaimsFromUser | src/Identity.API/Services/ProfileService.cs:90-125 | the method's claim list is the one `IssuedClaims` describes |
| ProfileService.IssuedClaims | src/Identity.API/Services/ProfileService.cs:90-125 | with a non-blank user name: the list starts with sub, preferred_username and unique_name; its types are those plus the non-blank profile fields, email when supported and present, and phone claims when supported and a number is set; email_verified is always issued when email is supported |
| ProfileService.ClaimTypesAppend | src/Identity.API/Services/ProfileService.cs:93-122 | appending claims unions their types |
| ProfileService.AppendFieldsTypes | src/Identity.API/Services/ProfileService.cs:99-109 | adding the profile fields adds exactly the types of the non-blank fields |
| ProfileService.AppendFieldsPrefix | src/Identity.API/Services/ProfileService.cs:99-109 | adding fields never changes the claims already in the list |
| ProfileService.EmailClaimTypes | src/Identity.API/Services/ProfileService.cs:110-115 | the email block adds email when present and email_verified, only when email is supported |
| ProfileService.EmailVerifiedIssued | src/Identity.API/Services/ProfileService.cs:112-114 | with email support, the email_verified claim carries "true"/"false" and the boolean value type |
| ProfileService.PhoneClaimTypes | src/Identity.API/Services/ProfileService.cs:117-122 | the phone block adds both phone claims only when supported and a number is set |
| ProfileService.Active | src/Identity.API/Services/ProfileService.cs:59-82 | active exactly when the first sub claim is non-blank, names a known user, the security stamp matches (when supported and present), and the user is not locked out |
| ProfileService.IsActiveAsync | src/Identity.API/Services/ProfileService.cs:55-83 | a null subject fails with `ArgumentNullException`; otherwise `IsActive` is exactly `Active` |
| ProfileService.ChangedStampDeactivates | src/Identity.API/Services/ProfileService.cs:66-76 | a presented stamp that differs from the stored one makes the user inactive |
| ProfileService.LockoutEndsAtItsInstant | src/Identity.API/Services/ProfileService.cs:78-81 | with lockout enabled and an end set, the user is active exactly once the end has passed |
| ProfileService.ProfileData | src/Identity.API/Services/ProfileService.cs:39-48 | a null subject fails with `ArgumentNullException`; success exactly when the sub value is non-blank and names a user with a non-blank user name, and then the issued claims are that user's claims |
| ProfileService.GetProfileDataAsync | src/Identity.API/Services/ProfileService.cs:39-48 | sets `IssuedClaims` to the profile data on success and leaves it unchanged on failure |
| ProfileService.ProfileDataStartsWithSubject | src/Identity.API/Services/ProfileService.cs:47 | the issued claims start with the subject's own id |
| AuthorizationController.GetDestinations | src/Identity.API/Controllers/AuthorizationController.cs:330-356 | the security stamp goes nowhere; every other claim goes to the access token first; name, email and role also go to the identity token exactly when the matching scope was granted; no destination repeats |
| AuthorizationController.OtherClaimsStayInAccessToken | src/Identity.API/Controllers/AuthorizationController.cs:352-354 | any other claim type goes only into the access token |
| AuthorizationController.WithoutKey | src/Identity.API/Controllers/AuthorizationController.cs:150-152 | drops exactly the parameters named `prompt` |
| AuthorizationController.WithoutKeyAppend | src/Identity.API/Controllers/AuthorizationController.cs:150-152 | the remaining parameters keep their order: for two runs, the first's survivors come before the second's |
| AuthorizationController.RemoveFirst | src/Identity.API/Controllers/AuthorizationController.cs:148 | `ImmutableArray.Remove` drops one occurrence when there is one and nothing otherwise |
| AuthorizationController.ConsentDecision | src/Identity.API/Controllers/AuthorizationController.cs:179-230 | signs in exactly for implicit consent, or an external or explicit consent with a stored authorization (explicit without a consent prompt); refuses with consent_required for external consent without authorization, or explicit or systematic consent with prompt=none; otherwise shows the consent view |
| AuthorizationController.Authorize | src/Identity.API/Controllers/AuthorizationController.cs:56-233 | a POST without form content is rejected; every re-challenge carries the original parameters with `login` removed from the prompt |
| AuthorizationController.LoginRequiredWithoutChallenge | src/Identity.API/Controllers/AuthorizationController.cs:133-164 | when a login is needed, prompt=none gives login_required and anything else a challenge |
| AuthorizationController.PromptNoneNeverInteracts | src/Identity.API/Controllers/AuthorizationController.cs:137-146 | with prompt=none the user never sees a login challenge or a consent view |
| AuthorizationController.ImplicitConsentSignsIn | src/Identity.API/Controllers/AuthorizationController.cs:189-218 | an authenticated user of an implicit-consent client is signed in |
| AuthorizationController.SystematicConsentAlwaysAsks | src/Identity.API/Controllers/AuthorizationController.cs:179-230 | a systematic-consent client never signs in without the consent form |
| AuthorizationController.ChallengeHasOnePrompt | src/Identity.API/Controllers/AuthorizationController.cs:148-154 | the challenge parameters hold exactly one `prompt`, the last, with the login value removed |
| AuthorizationController.ChallengePromptDropsLogin | src/Identity.API/Controllers/AuthorizationController.cs:148 | for distinct prompt values, all and only the non-login prompts remain |
| AuthorizationController.ChallengePromptReadsBack | src/Identity.API/Controllers/AuthorizationController.cs:148 | the space-joined prompt splits back into the remaining prompt values |
| AuthorizationController.ExchangeToken | src/Identity.API/Controllers/AuthorizationController.cs:272-323 | grants other than authorization code and refresh token are rejected; sign-in exactly when the principal and a non-blank subject exist and the user is found and may sign in; every refusal is invalid_grant |
| ExternalController.EffectiveReturnUrl | src/Identity.API/Controller/ExternalController.cs:59-60 | a blank return URL becomes "~/"; any other is kept |
| ExternalController.Challenge | src/Identity.API/Controller/ExternalController.cs:57-73 | fails exactly when the return URL is neither local nor a valid return URL; otherwise the challenge targets the callback and carries exactly the returnUrl and scheme items |
| ExternalController.ChallengeReturnUrlReadsBack | src/Identity.API/Controller/ExternalController.cs:67-71 | the items of a challenge give back its effective return URL and scheme |
| ExternalController.UserIdClaimIndex | src/Identity.API/Controller/ExternalController.cs:129-131 | the first claim whose type is `sub` ignoring case, or else the first whose type is the name-identifier URI ignoring case; none exactly when the principal is missing or neither exists |
| ExternalController.Provider | src/Identity.API/Controller/ExternalController.cs:134-138 | the scheme item, present exactly when the properties hold it and it is not null |
| ExternalController.ExternalLoginOf | src/Identity.API/Controller/ExternalController.cs:126-145 | unknown user id exactly when there is no user-id claim; missing scheme exactly when there is one but no scheme; otherwise the provider, the user id claim's value, the other claims, and the user: the local user linked to (provider, user id) when there is one, else a new user with the provisioned claims of the other claims |
| ExternalController.FindUserFromExternalProvider | src/Identity.API/Controller/ExternalController.cs:126-145 | the method's result is `ExternalLoginOf` |
| ExternalController.ExternalLoginKeepsOtherClaims | src/Identity.API/Controller/ExternalController.cs:132-133 | the returned claims are the principal's claims minus exactly the user-id claim, as multisets |
| ExternalController.ExternalUserIdPreference | src/Identity.API/Controller/ExternalController.cs:129-130 | the user id is the first `sub` value, or else the first name-identifier value, types compared ignoring case |
| ExternalController.UpperCaseSubjectIsUserId | src/Identity.API/Controller/ExternalController.cs:129-145 | a principal holding only a `SUB` claim logs in with that claim's value as the user id and no other claims |
| ExternalController.NameFromParts | src/Identity.API/Controller/ExternalController.cs:170-181 | no name exactly when both parts are blank; a produced name is never blank |
| ExternalController.DerivedName | src/Identity.API/Controller/ExternalController.cs:158-182 | a derived name is never blank |
| ExternalController.AutoProvisionUser | src/Identity.API/Controller/ExternalController.cs:157-189 | the filtered claims are those `ProvisionedShape` describes |
| ExternalController.EmailPresent | src/Identity.API/Controller/ExternalController.cs:184-185 | the `??` lookup yields an e-mail value exactly when some claim has the JWT or the ClaimTypes e-mail type |
| ExternalController.ProvisionedShape | src/Identity.API/Controller/ExternalController.cs:157-189 | at most a name claim then at most an email claim: the name when some name is derivable, the email whenever an email claim exists |
| ExternalController.NameClaimWins | src/Identity.API/Controller/ExternalController.cs:158-163 | a non-blank name claim becomes the provisioned name |
| ExternalController.BlankJwtNameHidesClaimTypesName | src/Identity.API/Controller/ExternalController.cs:158-159 | a blank JWT name claim falls back to given and family names, not to the `ClaimTypes.Name` claim |
| ExternalController.NameFromGivenAndFamily | src/Identity.API/Controller/ExternalController.cs:170-173 | with no name claim, given and family names join with one space |
| ExternalController.EmptyEmailKept | src/Identity.API/Controller/ExternalController.cs:184-189 | an empty email claim is still provisioned, since only null is skipped |
| ExternalController.LocalSignInProperties.StoreTokens | src/Identity.API/Controller/ExternalController.cs:241 | stores exactly the given tokens |
| ExternalController.TokenValue | src/Identity.API/Controller/ExternalController.cs:238 | `GetTokenValue`: present exactly when a token of the name exists, and is its value |
| ExternalController.SessionClaim | src/Identity.API/Controller/ExternalController.cs:232-236 | one sid claim exactly when the principal's session id is not blank |
| ExternalController.ProcessLoginCallback | src/Identity.API/Controller/ExternalController.cs:229-243 | appends the session claim when there is one, and stores the id token exactly when it is not blank, otherwise leaves the tokens alone |
| IdentityExtensions.IsNativeClient | src/Identity.API/Extensions/Extensions.cs:65-69 | native exactly when the redirect URI does not start with "http" |
| IdentityExtensions.HttpsStartsWithHttp | src/Identity.API/Extensions/Extensions.cs:67-68 | the "https" test adds nothing to the "http" one |
| IdentityExtensions.NativeClientExamples | src/Identity.API/Extensions/Extensions.cs:65-69 | http and https callbacks are not native; a custom-scheme callback is |
| IdentityExtensions.LoadingPage | src/Identity.API/Extensions/Extensions.cs:78-83 | status 200, an empty Location header, other headers kept, and the named view with its model |
| IdentityExtensions.LoadingPageKeepsOtherHeaders | src/Identity.API/Extensions/Extensions.cs:81 | setting Location leaves every other header as it was |
| SecurityHeaders.WithHeader | src/Identity.API/Extensions/SecurityHeadersAttribute.cs:40-46 | adds the header only when absent; an existing value is kept |
| SecurityHeaders.AddResponseHeader | src/Identity.API/Extensions/SecurityHeadersAttribute.cs:40-46 | the response's headers gain the header only if absent; the status is unchanged |
| SecurityHeaders.OnResultExecuting | src/Identity.API/Extensions/SecurityHeadersAttribute.cs:15-32 | a view result gets the five security headers; any other result is untouched |
| SecurityHeaders.SecurityHeadersSet | src/Identity.API/Extensions/SecurityHeadersAttribute.cs:17-31 | after the filter all five headers are present, each with its previous value or the default |
| SecurityHeaders.OtherHeadersUntouched | src/Identity.API/Extensions/SecurityHeadersAttribute.cs:17-31 | the filter neither adds, removes nor changes any other header |
| SecurityHeaders.SecurityHeadersIdempotent | src/Identity.API/Extensions/SecurityHeadersAttribute.cs:17-31 | applying the filter twice equals applying it once |
| SecurityHeaders.PolicyHeadersAgree | src/Identity.API/Extensions/SecurityHeadersAttribute.cs:24-28 | the standard and legacy content-security-policy headers carry the same policy |
| LoginViewModel.Visible | src/Identity.API/Models/Account/LoginViewModel.cs:26-27 | keeps exactly the providers with a non-blank display name, in order |
| LoginViewModel.VisibleAppend | src/Identity.API/Models/Account/LoginViewModel.cs:26-27 | visibility filters each part of a concatenation separately |
| LoginViewModel.ExternalLoginSchemeOf | src/Identity.API/Models/Account/LoginViewModel.cs:32-37 | a scheme exactly when local login is off and there is one provider, and it is that provider's scheme |
| LoginViewModel.LoginViewModel.constructor | src/Identity.API/Models/Account/LoginViewModel.cs:11-21 | remember-login allowed, local login enabled, no providers, and return URL "~/" |
| AccountController.HintedIdP | src/Identity.API/Controller/AccountController.cs:137-139 | the context's identity-provider hint, when one is given |
| AccountController.SchemeProviders | src/Identity.API/Controller/AccountController.cs:158-163 | one provider per scheme that has a display name, keeping its name and scheme |
| AccountController.Restricted | src/Identity.API/Controller/AccountController.cs:169-174 | keeps exactly the providers the client's restriction list names |
| AccountController.BuildLoginViewModel | src/Identity.API/Controller/AccountController.cs:134-188 | a fresh model with the hint's user name, the given return URL, and the providers and local-login flag for the context |
| AccountController.BuildLoginViewModelFromInput | src/Identity.API/Controller/AccountController.cs:122-128 | the same model, with the user name and remember-login flag taken from the input and the password cleared |
| AccountController.HintedIdPPage | src/Identity.API/Controller/AccountController.cs:137-156 | with a hinted provider, local login is on exactly for "local"; an external hint gives that single provider; "local" gives none |
| AccountController.ListedProviders | src/Identity.API/Controller/AccountController.cs:158-177 | without a hint, the providers are the display-named schemes, restricted when the client has a restriction list |
| AccountController.SchemeProvidersAppend | src/Identity.API/Controller/AccountController.cs:158-163 | the providers keep the order of the schemes: those of a concatenation are the first part's followed by the second's |
| AccountController.RestrictedAppend | src/Identity.API/Controller/AccountController.cs:171-175 | the restriction keeps the providers' order: that of a concatenation is the first part's followed by the second's |
| AccountController.ProvidersForAppend | src/Identity.API/Controller/AccountController.cs:158-177 | without a hint, the page lists providers in scheme order: the list for two runs of schemes is the first run's followed by the second's |
| AccountController.ProvidersForOne | src/Identity.API/Controller/AccountController.cs:158-177 | without a hint, one scheme is listed, as itself, exactly when it has a display name and the client's restriction list (if any) names it |
| AccountController.LocalLoginWithoutHint | src/Identity.API/Controller/AccountController.cs:164-187 | without a hint, local login follows the client's setting, and is on when there is no client |
| AccountController.LoginPage | src/Identity.API/Controller/AccountController.cs:55-65 | challenges the single external scheme exactly when the page is external-login-only; otherwise shows the login view |
| AccountController.HintedProviderIsChallenged | src/Identity.API/Controller/AccountController.cs:59-62 | an external provider hint always goes straight to that provider |
| AccountController.LoginDecision | src/Identity.API/Controller/AccountController.cs:73-116 | the view is shown again exactly when model state or sign-in fails, with the invalid-credentials message only if the model was valid; after success a native client gets the loading page, any other authorization context a redirect, a local or blank URL a local redirect, and anything else an invalid-return-URL error |
| AccountController.Login | src/Identity.API/Controller/AccountController.cs:73-116 | the method's result is `LoginDecision`, with a rebuilt view model exactly when the view is shown |
| AccountController.TrustedReturnNeverFails | src/Identity.API/Controller/AccountController.cs:80-106 | after a successful sign-in with a context or a local return URL, the return URL is never refused |
| OpenApiOptions.TryAdd | src/eShop.ServiceDefaults/OpenApiOptionExtensions.cs:59-60 | adds the response only for a status not already present |
| OpenApiOptions.ApplyAuthorizationChecks | src/eShop.ServiceDefaults/OpenApiOptionExtensions.cs:49-70 | an operation without authorize metadata is untouched; otherwise 401 and 403 are added if missing and one oauth2 requirement with the scopes is set |
| OpenApiOptions.AuthorizationResponsesKept | src/eShop.ServiceDefaults/OpenApiOptionExtensions.cs:59-60 | existing responses keep their descriptions; 401 and 403 are always present afterwards |
| OpenApiOptions.AuthorizationResponsesIdempotent | src/eShop.ServiceDefaults/OpenApiOptionExtensions.cs:59-60 | adding the authorization responses twice equals adding them once |
| OpenApiOptions.ApplyOperationDeprecatedStatus | src/eShop.ServiceDefaults/OpenApiOptionExtensions.cs:88-97 | the operation becomes deprecated when its API is, and is never un-deprecated |
| OpenApiOptions.FirstParameterNamed | src/eShop.ServiceDefaults/OpenApiOptionExtensions.cs:110 | the first parameter with the name, or none has it |
| OpenApiOptions.ApplyApiVersionDescription | src/eShop.ServiceDefaults/OpenApiOptionExtensions.cs:105-119 | the first `api-version` parameter gets the fixed description and example; the others and the parameter list are unchanged |
| OpenApiOptions.ApplySchemaNullableFalse | src/eShop.ServiceDefaults/OpenApiOptionExtensions.cs:126-143 | every property that is not listed as required becomes non-nullable; a property schema reached only through required names keeps its flag |
| OpenApiOptions.HtmlLinksMembers | src/eShop.ServiceDefaults/OpenApiOptionExtensions.cs:181-183 | the link list keeps exactly the links of type text/html |
| OpenApiOptions.Description | src/eShop.ServiceDefaults/OpenApiOptionExtensions.cs:151-207 | the description text: the deprecation notice, the sunset notice and the HTML link list, in that order |
| OpenApiOptions.BuildDescription | src/eShop.ServiceDefaults/OpenApiOptionExtensions.cs:151-207 | the string builder produces `Description` |
| OpenApiOptions.AppendHtmlLinks | src/eShop.ServiceDefaults/OpenApiOptionExtensions.cs:181-203 | the link loop appends a header, one item per HTML link and a footer, and appends nothing without HTML links |
| OpenApiOptions.DeprecationNoticeFirst | src/eShop.ServiceDefaults/OpenApiOptionExtensions.cs:154-157 | a deprecated API's description starts with the deprecation notice |
| OpenApiOptions.LinkListIffHtmlLink | src/eShop.ServiceDefaults/OpenApiOptionExtensions.cs:181-203 | the description ends with the link-list footer exactly when the sunset policy has an HTML link |
| OpenApiOptions.HtmlLinksAppend | src/eShop.ServiceDefaults/OpenApiOptionExtensions.cs:183-200 | filtering HTML links distributes over concatenation |
| OpenApiOptions.LinkItemsAppend | src/eShop.ServiceDefaults/OpenApiOptionExtensions.cs:185-200 | rendering link items distributes over concatenation |
| OpenApiOptions.ForGroup | src/eShop.ServiceDefaults/OpenApiOptionExtensions.cs:30-31 | keeps exactly the API version descriptions of the document's group |
| OpenApiOptions.ForGroupAppend | src/eShop.ServiceDefaults/OpenApiOptionExtensions.cs:30-31 | the group's descriptions keep their order: for two runs, the first's come before the second's |
| OpenApiOptions.ForGroupCount | src/eShop.ServiceDefaults/OpenApiOptionExtensions.cs:30-32 | each description of the group is kept as many times as it occurs, so `SingleOrDefault` sees every duplicate |
| OpenApiOptions.ApplyApiVersionInfo | src/eShop.ServiceDefaults/OpenApiOptionExtensions.cs:26-41 | with one matching description: version set to its version, title and description replaced; none: unchanged; more than one: the error the single-element lookup throws |

## Left out

- Database access: the connection, `ReloadTypesAsync`, `SaveChangesAsync` and the change tracker. Tables are plain sequences, database-generated ids are parameters, and EF Core query translation is not modelled.
- Concurrency and `async`: every awaited call is taken to complete in order.
- Reflection: the discovery of event types (`Assembly.GetEntryAssembly`, `GetTypes`) is a list of type names passed in. JSON serialisation is a pair of function parameters.
- `IntegrationEventLogService.SaveEventAsync`: a duplicate `EventId` makes the database's primary key throw. The model reports it as `DuplicateEventId`.
- `IntegrationEventLogService.RetrieveEventLogsPendingToPublishAsync`: the order of rows with equal creation time, which the database leaves unspecified, is modelled as the stable order of storage.
- Clock, culture and files: `DateTime.UtcNow` and `DateTime.Now` are parameters. Picture paths use "/" as separator, and the file's last-modified time is not modelled. Reading `catalog.json` is given as the parsed entries or a parse failure.
- Logging and event raising: `ILogger` calls and `IEventService.RaiseAsync` have no effect on results.
- `ExternalController.Callback`: left out because it only chains framework calls (authentication, principal creation, cookie sign-in and sign-out) around `FindUserFromExternalProvider` and `ProcessLoginCallback`, which are modelled. The return URL it reads back is the one `ChallengeReturnUrlReadsBack` states.
- `ExternalController.AutoProvisionUserAsync`: only the claim filtering is modelled. The user creation, `AddClaimsAsync`, `AddLoginAsync` and the random `Guid` user name are identity-store calls whose failures only rethrow.
- `OpenApiOptionExtensions.ApplySecuritySchemaDefinitions` and `SecuritySchemeDefinitionsTransformer`: these only read configuration into an OAuth2 scheme document.
- `ExternalController.UserIdClaimIndex`: `OrdinalIgnoreCase` folds the case of every Unicode letter; the model folds ASCII letters only, which covers the ASCII claim type names compared here.
- `CatalogSeed.SaveAndAssign`: in the source a row's `CatalogBrand` and `CatalogType` are the same objects as the saved list entries, so saving gives them their generated ids too; in the model those nested values keep id 0 and only `CatalogBrandId` and `CatalogTypeId` carry the saved ids.
- `AuthorizationController.Authorize`: ASP.NET looks form keys (`submit.Accept`, `submit.Deny`) up case-insensitively; the model compares them exactly.
- `CatalogApi.OrderByName`: the database orders names by its own collation; the model orders them ordinally, character code by character code.
- `SecurityHeaders.AddResponseHeader`: ASP.NET header names are case-insensitive; the model compares them exactly.
- `IdentityExtensions.LoadingPage`: the `Location` header is found case-insensitively by ASP.NET; the model compares header names exactly, so a header named `location` is kept beside the new `Location`.
- `OpenApiOptions.BuildDescription`: the separator the source writes before the deprecation notice when the builder is not empty (`resultBuilder.Length > 0`, inside `if (IsDeprecated)`) is not modelled. The builder is always empty at that point, so the branch never runs.
- `OpenApiOptions.Description`: `Environment.NewLine` is taken as "\n", and dates are pre-formatted strings.
- `ProfileService.ClaimFor`: a missing value type is modelled as `None`, while the framework fills in `ClaimValueTypes.String`.
- `ProfileService` user fields: the profile fields of `ApplicationUser` are taken from their use in `ProfileService`, since `ApplicationUser.cs` declares only `ClientIds`.
- `RedirectService.ExtractRedirectUriFromReturnUrl`: `WebUtility.HtmlDecode` is a parameter. `Regex.Split` with a literal pattern is modelled as a plain split on that text.
- `AccountController.Login`: the model-state errors raised by data-annotation binding are left out, and an invalid model is one flag. The similar controller under `Controllers/` (with an "s") is not part of this model.
- `CatalogApi.Page`: `PageSize * PageIndex` wraps like C# 32-bit `int` arithmetic. `Skip` and `Take` follow LINQ's rules for negative counts; the database's own behaviour for these may differ.
- `OpenApiOptions.ApplySchemaNullableFalse`: it is stated for one schema object. Schemas reached through several properties (aliasing) are covered only because the loop sets each one's flag in place.

## Findings

| source | as written | input that shows it | evidently intended | confidence | as-written member | corrected member |
|---|---|---|---|---|---|---|
| src/Catalog.API/Infrastructure/CatalogContextSeed.cs:72 | a catalog row is added only when the same item also created a new brand and a new type (`catalogBrand != null && catalogType != null`) | two items with brand "B", types "T1" and "T2" and ids 1 and 2: only item 1 is seeded | every item with a non-blank brand and type and an unused id is seeded, pointing at its (possibly existing) brand and type | not executed | CatalogSeed.SeedDropsRepeatedBrand | CatalogSeed.SeedAsyncIntended |
