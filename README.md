# Audit-log API: a Dafny model of its rules

This project models the rules of a multi-tenant audit-log service, an
Express and Mongoose application. Organizations hold API keys. Users
authenticate with a JWT bearer token whose claims name the user and the
organization. Logs are written, listed and counted per event type, and only
ever within the caller's organization. A burst of deletions raises an alert.
Users keep saved searches, either private or shared with their organization.

The model keeps each rule and leaves the framework out. The database
collections become sequences. The request, the token claims and the
environment become maps from names to strings. The clock, the random bytes,
the new identifiers, the token signer and verifier, and the id-format check
are all parameters. The modules, one per source file, are:

- `Pagination`: the opaque cursor and the pagination options. The cursor is
  base64url (section 5 of RFC 4648, unpadded) of the UTF-8 bytes of the JSON
  text of a value. It is built on:
  - `Json`, with the round-trip lemmas in `JsonRoundTrip`;
  - `Utf8` and `Base64Url`;
  - `Numbers`, JavaScript's `parseInt`, `Number` and `String` on integers.
- `LogsController`:
  - `createLog`'s fallbacks;
  - the `listLogs` query, built step by step in a method;
  - `logsStats` as a group, count and sort.
- `LogModel`:
  - the log document;
  - its `eventType` enumeration;
  - the required fields;
  - the pre-save hook that derives `metadataText`. The hook is a method on
    a `LogDocument` class.
- `SuspiciousActivity`: the count of one organization's `DELETE` actions in
  a one-minute window, and the alert threshold.
- `SavedSearchController`: the visibility rule shared by list, get and delete.
  The collection is a `Store` class whose `Create` and `Delete` methods change
  it.
- `EnvValidation`: `normalize` and the checks of `validateEnv`. `ValidateEnv`
  is a method that pushes each message in source order.
- `AuthMiddleware` and `Jwt`: bearer extraction, the claim fallbacks, the
  token payload, and how a generated token fares when read back.
- `OrganizationController` (with `OrganizationModel`):
  - creation, including its API key;
  - paging of the list;
  - get, update and delete with their 400/404 order.
- `ErrorHandler`: the status and the body sent for an error.
- `RequestLogger`: the log level of a response, its message, and the
  redacted headers.
- Helper modules:
  - `Wrappers`: Option and Result;
  - `Js`: truthiness and `||` chains;
  - `Text`: trim, lower case and split;
  - `Sorting`: a stable descending sort;
  - `Bytes`.

## Model

| member | source | states |
|---|---|---|
| Pagination.EncodeCursor | utils/pagination.js:31-32 | the cursor is non-empty, uses only `A-Z a-z 0-9 - _`, and has no `=` padding |
| Pagination.DecodeCursor | utils/pagination.js:34-35 | a text that decodes uses only the URL-safe alphabet; CursorRoundTrip makes it the inverse of EncodeCursor |
| Pagination.BaseOptions | utils/pagination.js:3-15 | no cursor; page and limit are radix-10 `parseInt` of the parameters or of "1" and "10"; the sort key is `sortBy` or "timestamp"; the direction is 1 exactly when `order` is "asc", otherwise -1 |
| Pagination.BuildPagination | utils/pagination.js:2-28 | failure exactly when a truthy cursor does not decode, with "Invalid cursor"; on success the options are the base options, carrying a cursor exactly when the parameter is truthy |
| Pagination.CursorRoundTrip | utils/pagination.js:31-35 | decoding an encoded cursor gives back the value, for every JSON value whose objects have distinct keys |
| Pagination.Defaults | utils/pagination.js:3-15 | with no parameters the options are page 1, limit 10, sortBy "timestamp", direction -1 and no cursor |
| Pagination.DefaultBase | utils/pagination.js:3-15 | the options read before the cursor are those same defaults |
| Pagination.SortDirection | utils/pagination.js:6-14 | the direction is 1 exactly when `order` is exactly "asc", otherwise -1; the one sort key is `sortBy`, defaulting to "timestamp" |
| Pagination.NoCursor | utils/pagination.js:18-27 | a missing or empty cursor parameter succeeds with no cursor field |
| Pagination.InvalidCursorIff | utils/pagination.js:18-24 | the call fails exactly when the cursor is truthy and does not decode, and then the message is "Invalid cursor" |
| Pagination.EncodedCursorAccepted | utils/pagination.js:18-21 | an encoded cursor is accepted; the result is the cursor-less options with `cursor` set to the value, and page, limit and sort are unchanged |
| Pagination.PageAndLimit | utils/pagination.js:12-13 | page and limit are read base 10 from the leading digits, whatever follows them |
| Numbers.ParseIntOfIntToString | utils/pagination.js:12-13 | `parseInt(String(i) + rest, 10)` is `i` when `rest` does not start with a digit |
| Numbers.ParseInt | utils/pagination.js:12-13 | all-space text is NaN, and an integer result needs a digit in the text; ParseIntNaN gives when it is NaN and ParseIntOfText gives its value otherwise |
| Numbers.ParseIntOfText | utils/pagination.js:12-13 | leading white space, then an optional `+` or `-`, then digits (leading zeros included) up to the first non-digit read as the signed value of those digits |
| Numbers.ParseIntAuto | controllers/organization.controller.js:39-40 | without a `0x` prefix, radix-less `parseInt` reads as radix 10 does |
| Numbers.IsNaNString | config/validateEnv.js:28 | an empty or all-space string is a number (0), not NaN |
| Numbers.ParseIntNaN | utils/pagination.js:12-13 | `parseInt` gives NaN exactly when, after leading white space and one sign, no digit follows |
| Numbers.HexPrefixRead | controllers/organization.controller.js:39-40 | without a radix a `0x` prefix is read as hexadecimal, while with radix 10 the same text reads as 0 |
| Numbers.ParseDigits | controllers/organization.controller.js:39-40 | a decimal digit string without a hex prefix reads as its value with and without a radix |
| Numbers.NatToStringOfValue | utils/pagination.js:32 | a canonical digit string is the decimal text of its value |
| Numbers.DecimalIsNumber | config/validateEnv.js:28 | the decimal text of an integer is never NaN under numeric coercion |
| Numbers.BadLeadMakesNaN | config/validateEnv.js:28 | a trimmed string whose first character cannot begin a number coerces to NaN |
| JsonRoundTrip.RoundTrip | utils/pagination.js:32-35 | `JSON.parse(JSON.stringify(v))` is `v` for every value with distinct keys in each object |
| Json.Stringify | utils/pagination.js:32 | the text of every value is non-empty; RoundTrip makes Parse its inverse |
| Json.Parse | utils/pagination.js:35 | the empty text does not parse |
| JsonRoundTrip.ValueRoundTrip | utils/pagination.js:32-35 | a value's text followed by a comma, a bracket, a brace or nothing reads back as that value, leaving what followed |
| JsonRoundTrip.StringRoundTrip | utils/pagination.js:32-35 | an escaped string body reads back, with every escape form (short escapes, `\u00XX` controls, plain characters) undone |
| JsonRoundTrip.NumberRoundTrip | utils/pagination.js:32-35 | the text of an integer reads back as that integer |
| JsonRoundTrip.MembersRoundTrip | utils/pagination.js:32-35 | the members of an object read back in order, onto the members already read |
| Utf8.DecodeEncode | utils/pagination.js:32-35 | decoding the UTF-8 encoding of a string gives the string |
| Utf8.EncodeDecode | utils/pagination.js:35 | a byte string that decodes is exactly the encoding of what it decodes to, so the decoder accepts only canonical UTF-8 |
| Utf8.DecodeEncodeChar | utils/pagination.js:32-35 | one character's 1-4 byte encoding decodes to that character and consumes exactly those bytes |
| Utf8.Encode | utils/pagination.js:32 | a string of n characters takes between n and 4n bytes |
| Utf8.Decode | utils/pagination.js:35 | a decoded string has no more characters than the bytes it came from |
| Base64Url.Encode | utils/pagination.js:32 | the text uses only the URL-safe alphabet, has no padding, and has length `ceil(4n/3)` for `n` bytes |
| Base64Url.Decode | utils/pagination.js:35 | decoding fails exactly when a character lies outside the alphabet |
| Base64Url.DecodeEncode | utils/pagination.js:32-35 | decoding an encoding gives the bytes back |
| Base64Url.UnpackPack | utils/pagination.js:32-35 | unpacking the 6-bit groups of a byte string, three bytes at a time, gives the bytes back |
| Base64Url.ValuesOfSymbols | utils/pagination.js:32-35 | the symbols of 6-bit values read back as those values |
| LogsController.BuildDraft | controllers/logs.controller.js:7-19 | the organization comes from the token; user id and email fall back from the body to the token; the user name is the body's or "Unknown", since the authenticated user carries no name; eventType "OTHER", description "", metadata {} and timestamp now apply when the body value is falsy |
| LogsController.CreateLog | controllers/logs.controller.js:5-28 | an invalid document stores nothing; a valid one is appended with its derived text; the response is 201 unless an alert was due and its mail failed, in which case the error is forwarded and the log stays stored |
| LogsController.CreatedLogIsTenants | controllers/logs.controller.js:8-24 | a created log belongs to the token's organization, carries its derived text and is the one log appended |
| LogsController.CreateDefaults | controllers/logs.controller.js:9-18 | a body with only an action gives user name "Unknown", eventType OTHER, description "", metadata {} with text "{}", and timestamp now |
| LogsController.MailFailureKeepsLog | controllers/logs.controller.js:21-27 | when the alert is due and its mail fails, no 201 is sent but the log is already stored |
| LogsController.BuildLogQuery | controllers/logs.controller.js:47-51 | the query built step by step is the query of the parameters, and every log it selects belongs to the token's organization |
| LogsController.SelectsIff | controllers/logs.controller.js:47-51 | a log is selected exactly when it is the tenant's and it matches each truthy filter: eventType exactly, user id exactly, action as a case-insensitive substring |
| LogsController.OtherParamsIgnored | controllers/logs.controller.js:33-51 | two parameter maps that agree on eventType, userId and action give the same query |
| LogsController.IfTruthy | controllers/logs.controller.js:49-51 | a filter is present exactly when its parameter is truthy, and then equals it |
| LogsController.QueryFor | controllers/logs.controller.js:47-51 | the organization is the token's; each of eventType, userId and action is in the query exactly when its parameter is truthy, with the parameter's value |
| LogsController.Selects | controllers/logs.controller.js:47 | a log the query selects belongs to the query's organization |
| LogsController.ListOptions | controllers/logs.controller.js:41-45 | the list options have no cursor, and direction 1 exactly when `order` is exactly "asc", else -1 |
| LogsController.ListOptionsAsPagination | controllers/logs.controller.js:33-45 | the list options are what the pagination builder gives for the same parameters without a cursor |
| LogsController.StatsSumAndOrder | controllers/logs.controller.js:64-68 | the counts add up to the number of the tenant's logs and are in descending order |
| LogsController.StatsComplete | controllers/logs.controller.js:65-66 | every event type among the tenant's logs has an entry |
| LogsController.StatsDistinct | controllers/logs.controller.js:66 | no event type has two entries |
| LogsController.TenantTypes | controllers/logs.controller.js:65 | for every event type, the number of times it is listed equals the number of the organization's logs of that type; so at most one type per log, and each type listed is that of a log of the organization |
| LogsController.LogsStats | controllers/logs.controller.js:62-74 | sorted by count, largest first, and each entry's count is the positive number of the tenant's logs of its type |
| LogsController.Groups | controllers/logs.controller.js:66 | each group's count is the positive number of occurrences of its type, and its type is one of the listed types |
| LogsController.GroupsComplete | controllers/logs.controller.js:66 | every listed type that occurs has a group |
| LogsController.GroupsSum | controllers/logs.controller.js:66 | the group counts add up to the occurrences of the listed types |
| LogsController.SumOccAll | controllers/logs.controller.js:66 | counted over all event types, every log is counted once |
| LogsController.ListedOnce | models/logs.model.js:21 | each event type appears exactly once in the enumeration |
| LogsController.SumPermutation | controllers/logs.controller.js:67 | sorting the groups keeps their total |
| Sorting.SortDesc | controllers/logs.controller.js:67 | the result is sorted by key, largest first, and is a permutation of the input |
| Sorting.Insert | controllers/logs.controller.js:67 | inserting into a sorted list keeps it sorted and adds exactly the one element |
| LogModel.ParseEventType | models/logs.model.js:18-24 | a name is accepted exactly when it is one of the seven enumeration names, and it reads back as that name |
| LogModel.ParseName | models/logs.model.js:21 | every event type's name reads back as that type |
| LogModel.FailingPaths | models/logs.model.js:6-24 | validation passes exactly when organization, user id and action are present and the event type is in the enumeration; each of the four paths is listed exactly when its own field fails, and no other path is listed |
| LogModel.MetadataText | models/logs.model.js:39-48 | a string is kept; null or missing gives "{}"; a value the stringifier throws on gives ""; MetadataTextReadsBack covers the rest |
| LogModel.Validate | models/logs.model.js:4-36 | a valid draft becomes a log with the draft's organization, user (id, name, email), action, parsed event type, description, metadata and timestamp, an empty `metadataText` and creation time now; an invalid one fails with exactly its failing paths, which are non-empty |
| LogModel.MetadataTextReadsBack | models/logs.model.js:39-48 | string metadata is its own text; null or missing metadata reads back as {}; other JSON reads back as itself; unserialisable metadata gives "" |
| LogModel.WithText | models/logs.model.js:41-45 | only `metadataText` changes, and it becomes the text derived from the metadata |
| LogModel.WithTextIdempotent | models/logs.model.js:39-48 | running the hook twice is the same as running it once |
| LogModel.LogDocument.PreSave | models/logs.model.js:39-48 | the document after the hook is the document before it with the derived text in place |
| SuspiciousActivity.CheckSuspiciousActivity | services/checkSuspiciousActivity.js:5-20 | an alert is raised exactly when more than 5 deletes are counted and the organization exists; it carries that organization and the exact count |
| SuspiciousActivity.DeleteCountIsFilter | services/checkSuspiciousActivity.js:8-12 | the count is the number of logs of that organization, with action exactly "DELETE", created at or after now - 60000 |
| SuspiciousActivity.DeleteCount | services/checkSuspiciousActivity.js:8-12 | at most one per log, and zero exactly when no log is the organization's recent "DELETE" |
| SuspiciousActivity.AppendCount | services/checkSuspiciousActivity.js:8-12 | one more log raises the count by one exactly when it qualifies |
| SuspiciousActivity.WindowBoundary | services/checkSuspiciousActivity.js:6-11 | a delete exactly 60000 ms old is counted, one 60001 ms old is not |
| SuspiciousActivity.ActionOnly | services/checkSuspiciousActivity.js:10 | "delete" in lower case, or a DELETE event type with another action, is not counted |
| SuspiciousActivity.OtherTenantsIgnored | services/checkSuspiciousActivity.js:9 | logs of other organizations never change the count |
| SuspiciousActivity.CountMonotoneInTime | services/checkSuspiciousActivity.js:6-11 | for the same logs the count can only fall as time passes |
| SuspiciousActivity.RepeatedAlerts | services/checkSuspiciousActivity.js:5-20 | nothing is remembered between calls: another qualifying delete alerts again, with the count one higher |
| SuspiciousActivity.SixDeletesAlert | services/checkSuspiciousActivity.js:14-17 | six qualifying deletes alert with count 6 |
| SuspiciousActivity.FiveNeverAlert | services/checkSuspiciousActivity.js:14 | five or fewer logs never alert |
| SuspiciousActivity.AllCounted | services/checkSuspiciousActivity.js:8-12 | when every log qualifies, all are counted |
| OrganizationModel.FindById | services/checkSuspiciousActivity.js:15-16 | an organization is found exactly when one has the id, and the one found has it |
| SavedSearchController.CreateOutcome | controllers/savedSearch.controller.js:4-26 | a missing user id or organization gives 401 and nothing else does; otherwise missing name or query fail validation; a created search takes organization and owner from the token, `isGlobal` from the truthiness of the body value, and is visible to its creator |
| SavedSearchController.FailingPaths | models/savedSearch.model.js:14-21 | name fails exactly when it is falsy, query exactly when it is missing or null, in schema order |
| SavedSearchController.Store.Create | controllers/savedSearch.controller.js:4-26 | the store gains exactly the created search, or is unchanged when creation is refused |
| SavedSearchController.VisibleOf | controllers/savedSearch.controller.js:33-35 | the result holds exactly the searches of the caller's organization that the caller owns or that are shared |
| SavedSearchController.List | controllers/savedSearch.controller.js:29-42 | the list is sorted newest first and is a permutation of the visible searches |
| SavedSearchController.FindVisible | controllers/savedSearch.controller.js:49-53 | the first search with the id that is visible to the caller, or none exactly when there is no such search |
| SavedSearchController.Get | controllers/savedSearch.controller.js:45-63 | a malformed id is a cast error; a found search has the id and is visible; 404 exactly when no visible search has the id |
| SavedSearchController.Store.Delete | controllers/savedSearch.controller.js:66-84 | the first visible search with the id is removed and nothing else changes; with none, 404 and the store is unchanged |
| SavedSearchController.RemoveKeepsUnique | controllers/savedSearch.controller.js:70-74 | removing one search removes exactly the search with that id and keeps ids unique |
| SavedSearchController.SharedSearchReachable | controllers/savedSearch.controller.js:73 | another user's shared search of the same organization is found, so it can be read and deleted |
| SavedSearchController.OtherOrganizationHidden | controllers/savedSearch.controller.js:34-72 | a search of another organization is never listed, returned or chosen for deletion |
| SavedSearchController.PrivateOnlyForOwner | controllers/savedSearch.controller.js:35 | a private search is never listed for anyone but its owner |
| SavedSearchController.InvisibleIsMissing | controllers/savedSearch.controller.js:55-57 | get answers as if the invisible searches did not exist, so missing and forbidden give the same 404 |
| SavedSearchController.FindVisibleOfVisible | controllers/savedSearch.controller.js:49-74 | searching all searches or only the visible ones finds the same search |
| SavedSearchController.CreatedIsListed | controllers/savedSearch.controller.js:14-36 | a created search appears in its creator's list |
| EnvValidation.Normalize | config/validateEnv.js:6-7 | a falsy value becomes ""; otherwise the trimmed value, with one surrounding pair of quotes removed when at least one character lies between them |
| EnvValidation.NormalizeUnquotes | config/validateEnv.js:7 | a quoted value without line breaks normalises to what lies inside the quotes |
| EnvValidation.MongoErrors | config/validateEnv.js:18-24 | no error exactly when the URI starts with "mongodb://" or "mongodb+srv://"; "required" exactly when it is empty; otherwise "must be a valid MongoDB connection string" |
| EnvValidation.PortErrors | config/validateEnv.js:27-28 | no error exactly when the port is present and not NaN under numeric coercion; "required" exactly when it is empty |
| EnvValidation.SecretErrors | config/validateEnv.js:31-33 | no error exactly when the secret has at least 16 UTF-16 code units; "required" exactly when it is empty |
| EnvValidation.EmailErrors | config/validateEnv.js:36-38 | no error exactly when the address has the shape local@domain.tld with no white space or extra `@`; "required" exactly when it is empty |
| EnvValidation.PassErrors | config/validateEnv.js:41-43 | no error exactly when the password is present and has no white space, or its raw value is quoted; "required" exactly when it is empty; the two messages exclude each other |
| EnvValidation.SwitchErrors | config/validateEnv.js:46-51 | no error exactly when the switch is unset or is "true" or "false" in any case |
| EnvValidation.IndexErrors | config/validateEnv.js:52-54 | an error exactly when the switch is "true" in any case and the index name is missing |
| EnvValidation.EqualsIgnoringCaseIsLower | config/validateEnv.js:48-52 | comparing case-insensitively is comparing the lower-cased value |
| EnvValidation.ValidateEnv | config/validateEnv.js:3-60 | the errors pushed are the errors of the environment, in source order |
| EnvValidation.Check | config/validateEnv.js:17-54 | the successive pushes give the messages of the seven checks in source order |
| EnvValidation.CheckMongo | config/validateEnv.js:18-24 | appends exactly MongoErrors of the URI to the list |
| EnvValidation.CheckPort | config/validateEnv.js:27-28 | appends exactly PortErrors of the port |
| EnvValidation.CheckSecret | config/validateEnv.js:31-33 | appends exactly SecretErrors of the secret |
| EnvValidation.CheckEmail | config/validateEnv.js:36-38 | appends exactly EmailErrors of the address |
| EnvValidation.CheckPass | config/validateEnv.js:41-43 | appends exactly PassErrors of the password and its raw value |
| EnvValidation.CheckSwitch | config/validateEnv.js:46-51 | appends exactly SwitchErrors of the switch |
| EnvValidation.CheckIndex | config/validateEnv.js:52-54 | appends exactly IndexErrors of the switch and the index name |
| EnvValidation.NoErrorsIffValid | config/validateEnv.js:57-62 | the error list is empty exactly when every variable passes its check |
| EnvValidation.AtMostOnePerCheck | config/validateEnv.js:17-54 | each check adds at most one message, so there are at most seven |
| EnvValidation.EmptyEnvironment | config/validateEnv.js:17-54 | an empty environment reports the five "required" messages in order, and nothing about Atlas Search |
| EnvValidation.AstralSecretLength | config/validateEnv.js:32 | the length check counts UTF-16 code units, so a character outside the BMP counts twice |
| EnvValidation.QuotedPasswordAccepted | config/validateEnv.js:41-43 | a quoted password with spaces normalises to its inside and raises no error |
| Text.TrimIsMiddleSlice | config/validateEnv.js:7 | trim removes only white space, from both ends, and leaves no white space at either end |
| Text.Trim | config/validateEnv.js:7 | no longer than its input, with no white space at either end |
| Text.TrimIdempotent | config/validateEnv.js:7 | trimming twice is trimming once |
| Text.SplitUnique | middlewares/auth.middleware.js:5 | the split of a string on a separator is the one list of separator-free parts that joins back to it |
| Text.Split | middlewares/auth.middleware.js:5 | at least one piece, none holding the separator, and the pieces joined with it give the text back |
| AuthMiddleware.BearerToken | middlewares/auth.middleware.js:5 | there is a token exactly when a header is present and holds a space; the token is the text after the first space, up to the next space or the end, and holds no space |
| AuthMiddleware.BearerOfHeader | middlewares/auth.middleware.js:5 | the token of "scheme token" is the second word |
| AuthMiddleware.Normalize | middlewares/auth.middleware.js:14-23 | id is the first truthy of id, _id, userId, user_id; organization the first truthy of organizationId, orgId, organization_id, org, _id; email is copied |
| AuthMiddleware.Auth | middlewares/auth.middleware.js:3-35 | no token gives 401 "No token provided"; a failed verification 401 "Invalid or expired token"; the request proceeds exactly when both ids are truthy, with a user of exactly id, organization and email |
| AuthMiddleware.NoSpaceNoToken | middlewares/auth.middleware.js:5-9 | a header without a space is refused with 401 "No token provided" |
| AuthMiddleware.MissingIdRejected | middlewares/auth.middleware.js:25-29 | a verified token without an id or organization is answered 400 and the request does not proceed |
| AuthMiddleware.GeneratedTokenAccepted | middlewares/auth.middleware.js:14-23 | a token generated with both ids set is accepted with those same ids and email |
| AuthMiddleware.OrganizationTokenRefused | controllers/organization.controller.js:20 | the token issued on organization creation carries no id, so it is answered 400 |
| AuthMiddleware.ClaimsWithoutId | middlewares/auth.middleware.js:15 | a payload without id gives no user id |
| AuthMiddleware.UnderscoreIdServesBoth | middlewares/auth.middleware.js:15-21 | a token holding only `_id` uses it as both the user and the organization |
| Jwt.Secret | utils/jwt.js:3 | the secret is JWT_SECRET when truthy, otherwise the fallback literal |
| Jwt.BuildPayload | utils/jwt.js:7-20 | id is the first truthy of _id, id, userId, user_id; organization of organizationId, orgId, organization_id, org; email is null when falsy; name is name, then userName, then null |
| Jwt.Claims | utils/jwt.js:7-20 | the signed claims hold only id, organizationId, email and name, with the payload's values |
| Jwt.GenerateToken | utils/jwt.js:5-22 | the signer gets the payload and the secret, with the given `expiresIn` when one is passed and "5h" otherwise |
| Jwt.VerifyToken | utils/jwt.js:25-31 | verification fails with "Invalid token" exactly when the verifier rejects the token, and otherwise returns its claims |
| Jwt.OrganizationPayload | utils/jwt.js:8-12 | a payload made from an organization id and an email has no id |
| OrganizationController.CreateOrganization | controllers/organization.controller.js:10-31 | a falsy name or email gives 400 and stores nothing; a name that trims to empty fails validation at `name` exactly then and stores nothing; otherwise the organization (trimmed name, lower-cased email, 64 lowercase hex characters of key) is appended and its token carries the organization id and email but no id; a clash on a unique field stores nothing |
| OrganizationController.HexEncode | controllers/organization.controller.js:17 | the key has two lowercase hexadecimal characters per byte |
| OrganizationController.HexRoundTrip | controllers/organization.controller.js:17 | the hexadecimal text of the bytes decodes back to them |
| OrganizationController.CreateKeepsKeysUnique | models/organization.model.js:10-20 | creation keeps ids, emails and API keys unique |
| OrganizationController.OrganizationToken | controllers/organization.controller.js:20 | the creation token carries the organization id and email, and no id claim |
| OrganizationController.PageCount | controllers/organization.controller.js:50 | pages is `ceil(total/limit)`: the least count of pages of `limit` that holds `total` |
| OrganizationController.PageOf | controllers/organization.controller.js:44-45 | a page skips `(page-1)*limit` entries and takes up to `limit`, in order |
| OrganizationController.ListPage | controllers/organization.controller.js:42-52 | the meta echoes total, page and limit with `ceil(total/limit)` pages; the organizations listed are the page of the store sorted newest first, i.e. (with PageOf) the ones after the first `(page-1)*limit`, at most `limit` of them, in that order |
| OrganizationController.ListOrganizations | controllers/organization.controller.js:36-56 | page and limit are `parseInt` of the parameters, defaulting to 1 and 10, and the organizations listed are that page of the store sorted newest first |
| OrganizationController.ListDefaults | controllers/organization.controller.js:38-40 | with no parameters page 1 and limit 10 are used |
| OrganizationController.PagesCoverAll | controllers/organization.controller.js:44-50 | every organization sits on exactly the page `i/limit + 1`, within the page count |
| OrganizationController.PastLastPageEmpty | controllers/organization.controller.js:44-50 | a page past the last is empty |
| OrganizationController.TwelveByFive | controllers/organization.controller.js:44-50 | twelve organizations by five make three pages, the last holding two |
| OrganizationController.PageOfSorted | controllers/organization.controller.js:44-46 | a page of the sorted store is sorted and holds only stored organizations |
| OrganizationController.GetOrganization | controllers/organization.controller.js:61-73 | a malformed id is 400 before any lookup; a well-formed id is found exactly when an organization has it, and the one returned has it; otherwise 404 |
| OrganizationController.UpdateFailures | models/organization.model.js:5-20 | a required field that the update sets to empty fails validation, the name after trimming |
| OrganizationController.Apply | controllers/organization.controller.js:83-86 | an update sets the given fields, trimming the name and lower-casing the email, and keeps the id and creation time |
| OrganizationController.UpdateOrganization | controllers/organization.controller.js:78-94 | a malformed id is 400; a failing field is a validation error; no match is 404; with a match, a clash of the updated email or key with another organization is a duplicate-key error, and otherwise the update replaces the one matching organization and nothing else |
| OrganizationController.UpdateKeepsKeysUnique | models/organization.model.js:10-20 | an update keeps ids, emails and API keys unique |
| OrganizationController.DeleteOrganization | controllers/organization.controller.js:99-111 | a malformed id is 400; a well-formed id no organization has is 404 "Organization not found"; deletion happens exactly when a match exists, removes one organization and keeps every other |
| OrganizationController.DeletedIsGone | controllers/organization.controller.js:104 | after a deletion no organization has the id |
| OrganizationController.InvalidIdBeforeLookup | controllers/organization.controller.js:63-102 | with a malformed id the answer does not depend on the store |
| OrganizationController.IndexOfId | controllers/organization.controller.js:66 | the first organization with the id, or none exactly when no organization has it |
| ErrorHandler.Status | middlewares/error.handler.js:5 | the status is the error's status code when truthy, otherwise 500 |
| ErrorHandler.Handle | middlewares/error.handler.js:2-11 | the body has `success: false`; in production the message is "Internal Server Error" and there is no stack; otherwise the error's message and stack |
| ErrorHandler.ProductionHidesDetails | middlewares/error.handler.js:8-9 | in production two errors with the same status get the same reply |
| ErrorHandler.DevelopmentShowsDetails | middlewares/error.handler.js:8-9 | outside production, errors that differ in message or stack get different replies |
| ErrorHandler.OnlyExactProduction | middlewares/error.handler.js:8 | only the exact value "production" hides details |
| RequestLogger.LogLevel | middlewares/request.logger.js:10-14 | error exactly when there is an error or the status is 500 or more; warn exactly for 400-499 without error; info otherwise |
| RequestLogger.LevelMonotone | middlewares/request.logger.js:10-14 | a higher status, or an error, never lowers the level |
| RequestLogger.SuccessMessage | middlewares/request.logger.js:15 | the message is the method, one space, the url, " -> " and the status, each at its stated position |
| RequestLogger.StatusReadBack | middlewares/request.logger.js:15 | the status reads back from the end of the message |
| RequestLogger.Redact | middlewares/request.logger.js:6-9 | the logged headers are exactly the headers other than authorization and cookie, unchanged |
| RequestLogger.RedactIdempotent | middlewares/request.logger.js:6-9 | redacting twice is redacting once |
| Js.Chain | middlewares/auth.middleware.js:15-21 | `a || b || ...` is truthy exactly when one value is, is then the first truthy value, and is otherwise the last value |
| Js.FirstTruthyPicksFirst | utils/jwt.js:8-17 | a chain of claim names picks the value of the first truthy claim |

## Left out

- The store is a sequence. The model leaves out database calls, indexes and text search, `mongoose-paginate`, `ObjectId` casting and the aggregation pipeline. The id-format check (`ObjectId.isValid`) and the id cast are function parameters.
- The clock (`Date.now`), the 32 random bytes, the new document ids, the mail result, and the token verifier are parameters. Each new organization id must be non-empty. Token signing is modelled only as the request handed to the signer.
- The process environment is an explicit map.
- Express responses, `next`, and the `try`/`catch` plumbing are shown as response values.
- ValidateEnv returns the error list. The `console` output and `process.exit(1)` are left out.
- The server, cluster and shutdown code is not part of this model. Neither are the database connection retry, the mail transport, the route wiring and the rate limiter.
- The logger's configuration is left out apart from the level, the success message and the redacted headers.
- `console.error` in the error handler is left out.
- Base64Url.Decode: accepts only the URL-safe alphabet with no padding, and fails otherwise. Node's `base64url` decoder never fails: it accepts `=` padding and `+`/`/`, and skips other characters. So a cursor such as `eyJhIjoxfQ==` decodes to `{"a":1}` in the service and the request proceeds, while the model answers "Invalid cursor". Pagination.DecodeCursor and Pagination.BuildPagination inherit this difference.
- Utf8.Decode: rejects malformed UTF-8. Node replaces it with U+FFFD. Characters are Unicode scalar values, so JSON strings holding lone surrogates are not modelled.
- Json: numbers are unbounded integers, with no fractions or exponents. JavaScript numbers are doubles: `JSON.parse("9007199254740993")` gives 9007199254740992, `JSON.stringify(1e21)` writes `"1e+21"`, and -0 is written `0`. The model keeps integers beyond 2^53 exact, writes every digit from 1e21 up, and has no -0. Whitespace between tokens is not produced by the stringifier. A key repeated in parsed text keeps its first position and its last value. Json.Parse keeps keys in text order, while `JSON.parse` lists integer-like keys first. Json.Parse also refuses `\u` escapes of surrogate pairs, which `JSON.parse` accepts. The round trip is stated for values whose objects have distinct keys.
- Numbers.ParseInt: results are unbounded integers. `parseInt` returns a double, so integers beyond 2^53 lose precision (`parseInt("9007199254740993", 10)` is 9007199254740992), large inputs can become `Infinity`, and `parseInt("-0")` is -0. None of these is modelled; the model gives the exact integer and 0.
- Numbers.IsNaNString: covers JavaScript's numeric coercion for decimal, signed, fractional, exponent, `Infinity` and `0x`/`0o`/`0b` literals, after trimming the ECMAScript white space and line terminators. Any other text is NaN; this includes numeric separators (`"1_000"`), as in JavaScript.
- Text.Lower: lower-cases ASCII letters only.
- Text.ContainsIgnoringCase: `new RegExp(action, "i")` is modelled as a case-insensitive substring match. This matches only for filter text without regular-expression metacharacters.
- OrganizationController.ListOrganizations: requires page and limit to parse as positive integers. With NaN, 0 or a negative value, Mongo's skip and limit and `Math.ceil` on NaN or infinity are not modelled.
- OrganizationController.CreateOrganization:
  - A non-string name or email (which Mongoose would cast) is not modelled.
  - A clash on a unique field is a single DuplicateKey outcome. The outcome does not say which index clashed.
- OrganizationController.ListPage: the model sorts with a stable sort, so organizations with equal `createdAt` keep their store order. MongoDB's `.sort({ createdAt: -1 })` leaves the order of ties unspecified (controllers/organization.controller.js:46). Across requests, a tied organization can then appear on two pages or on none. The model does not capture this.
- SavedSearchController.List: the same holds for saved searches with equal `createdAt`. The model keeps their store order, while MongoDB's `.sort({ createdAt: -1 })` leaves it unspecified (controllers/savedSearch.controller.js:36).
- OrganizationController.UpdateOrganization: an explicit `null` in the update body and updates of `createdAt` are not modelled. Body fields are strings.
- SavedSearchController.CreateOutcome: only the name and query validations of the schema are modelled. After authentication the user id and organization id are strings, and empty means missing.
- LogsController.CreateLog: the organization is stored as given; casting it to an ObjectId is not modelled. The suspicious-activity check runs after the write. A failing alert mail forwards the error to `next` and no 201 is sent. The log stays stored.
- LogsController.LogsStats:
  - MongoDB leaves the order of equal counts unspecified. The model uses a stable sort.
  - The model's stat entries carry the event type and count, where Mongo names the type `_id`.
- LogsController.LogsStats: `Log.aggregate` does not cast its pipeline, so the `$match` compares the token's organization id, a string, with the stored `ObjectId` and matches nothing. As written, the service answers `[]` for every tenant. The model states the evidently intended grouping of the tenant's logs, with real counts.
- LogsController.BuildDraft: the body's timestamp is an integer or missing. The schema casts it to a `Date`, and a value that does not cast fails validation at `timestamp`. LogModel.FailingPaths never reports that path.
- Jwt.Payload: claims are strings or missing. `toString()` of an ObjectId is the id string. Token expiry and `iat` are not checked by the model.
- `decodeToken` in the JWT utilities is a debugging helper that calls the library directly, so it is left out.
- LogsController.QueryFor: query values are strings. Express's query parser also yields arrays (`?action=a&action=b`) and objects (`?eventType[$ne]=X`). `listLogs` copies these into the Mongo filter unchanged (controllers/logs.controller.js:49-51), so an object becomes a query operator and an array of event types matches any of them. Neither case is modelled.
- `listLogs` never calls the pagination builder and never reads `search`; no `limit` cap and no keyset query exist, so none is modelled.
