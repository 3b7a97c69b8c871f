# docflow client — a Dafny model

This project models the PHP client of the docflow document-processing API
(`docflow/APIClient.php`). It covers three parts:

- **`ObjectId`**: the 24-hex-digit identifier value.
  - Validation on construction; the string is stored in its original case.
  - The embedded timestamp.
  - The `$oid` JSON form.
  - PHP's native serialised form, with a proved round trip.
- **`APIClient`**: the login session and the owner (project) context.
  - Owner membership and owner switching.
  - Response shaping for document types, the document list and document info.
  - The pages built for an upload.
  - The ordered checks of an upload.
  - The owner-switch decision when a document is looked up.
  - The date text sent with the document-list query.
- **`RESTClient`**: the status check on each response, and the session
  cookies taken from the `Set-Cookie` header lines and merged in header order.
  The session reads one cookie per line, which is what the cookie pattern is
  meant to do. The pattern as written can run on into the next line (see
  "## Findings" and `Rest.RESTClient.ParseCookies` under "## Left out").

The network is not modelled. Every operation that sends a request takes the
server's response to it as a parameter: a status, a header block and a
decoded body. The REST session keeps a ghost log of the requests it sent.
The contracts can therefore say which requests an operation sends, in which
order, and when it sends none.

Objects whose fields the PHP code updates become Dafny classes:
- `APIClient` has the login flag, the profile and the session as fields.
- `RESTClient` has the cookie map as a field.

The loops become methods with loop invariants, proved against specification
functions:
- `hasOwner`;
- the page loop of `prepareDocumentPages`;
- the merge loop of `parseCookies`.

The `array_map` projections and the `ObjectId` methods become functions. A
`Json` datatype models the decoded values, with PHP's property reads,
truthiness, `isset` and PHP 8's loose `==` and `>` where the client relies
on them. Numeric strings in integer form (such as `" 1"`, `"+1"` or `"01"`)
compare as numbers.

Files:
- `wrappers.dfy`: `Option`, `Result`, and `MapAll`, the order-preserving map that stops at the first failure (as `array_map` stops at the first exception).
- `errors.dfy`: one constructor per exception the client raises.
- `decimal.dfy`: decimal digit strings, zero padding.
- `numeric.dfy`: PHP's numeric strings in integer form and loose string comparison.
- `object_id.dfy`: `ObjectId`.
- `json.dfy`: decoded values and the PHP value rules.
- `normalize.dfy`: the response shaping.
- `cookies.dfy`: the `Set-Cookie` scanner and the cookie merge.
- `rest_client.dfy`: `RESTClient`.
- `dates.dfy`: `Y-m-d\TH:i:s.000\Z`.
- `pages.dfy`: `prepareDocumentPages` and `basename`.
- `api_client.dfy`: `APIClient`.

### Where the code differs from the client's written description

The model follows the code in each case:
- **Timestamp value.** The timestamp of `62f369e76bad1856b5216a0b` is `0x62f369e7` = 1660119527 (`TimestampFixture`), not 1660186087.
- **Case-sensitive equality.** Two ObjectIds that differ only in letter case are not equal, as long as they are not numeric strings (`CaseSensitiveEquality`). PHP's `==` on two ObjectId objects compares their `oid` strings loosely. So an all-digit id followed by a line feed equals the same id without it (`LineFeedTwin`).
- **Trailing line feed.** The validation pattern has no `D` modifier, so 24 hex digits followed by one line feed are accepted.
- **Logout.** `logout` does not clear the login flag or the profile.
- **Cookie replacement.** Each status-200 response *replaces* the stored cookies, including the answer to a rejected login or a rejected owner change. Nothing is merged across responses.
- **No guard on the document list.** `getDocumentList` performs no login check.
- **`$name` is unused.** `uploadDocument` ignores its `$name` argument and sends the file's basename.
- **Dates.** They are formatted in the DateTime's own time zone; the `Z` is a literal letter and no conversion to UTC takes place.
- **Login flag set early.** A login whose answer has `success == 1` sets the login flag *before* the profile is stored. A profile with a malformed id therefore leaves the client logged in, and the login still throws. The profile property is typed `\stdClass`. A `user` that is not an object is refused with a TypeError before it is stored, so the previous profile stays. A profile object is stored first and then converted in place, so a failed conversion leaves the stored object partly converted.
- **Rejected owner switch.** In `getDocumentInfo` a change of owner that the server rejects (`success` is not 1) is ignored, and the document is still fetched.
- **Owner with no match.** When no membership matches the current owner, `getOwner` reads `->role` on `false`, which gives null. It is modelled as a null role rather than excluded by a precondition.

## Model

| member | source | states |
|---|---|---|
| Wrappers.MapAll | docflow/APIClient.php:136-139 | `array_map` with a throwing callback: succeeds iff every element converts, then element-wise in order; otherwise the first failing element's error |
| Wrappers.MapAllPointwise | docflow/APIClient.php:136-139 | two lists whose elements convert alike, position by position, give the same `array_map` result, the same list or the same error |
| ObjectIds.MatchesOidPattern | docflow/APIClient.php:11 | the pattern's language: 24 hex digits in either case, optionally followed by one line feed (PCRE `$` without `D`) |
| ObjectIds.NewObjectId | docflow/APIClient.php:10-21 | construction succeeds exactly on strings the pattern matches; `__toString` gives the input back unchanged, case kept; otherwise InvalidArgumentException |
| ObjectIds.SameId | docflow/APIClient.php:103 | PHP `==` on two ObjectId objects: their `oid` strings compared loosely |
| ObjectIds.CaseSensitiveEquality | docflow/APIClient.php:10-17 | upper-casing a valid id that has a lower-case letter gives another valid id, and the two are not `==`: a letter makes the id non-numeric, so it is compared as text |
| ObjectIds.UpperCaseValid | docflow/APIClient.php:11 | the pattern is case-insensitive: the upper-cased id is valid and differs from the original |
| ObjectIds.HexLetterNotNumeric | docflow/APIClient.php:103 | a string holding a hex letter is not a numeric string in integer form |
| ObjectIds.LineFeedTwin | docflow/APIClient.php:11 | an all-digit id whose value fits a PHP integer and the same id with a final line feed are both valid, different, and `==` |
| ObjectIds.Timestamp | docflow/APIClient.php:23-25 | the timestamp always lies in [0, 2^32); for a valid id it is the big-endian value of the first 8 hex digits |
| ObjectIds.TimestampFixture | test_objectid.php:5-16 | the timestamp of the test id `62f369e76bad1856b5216a0b` is 1660119527 |
| ObjectIds.HexFixture | test_objectid.php:5-16 | the first eight digits of that id are hex and denote 0x62f369e7 |
| ObjectIds.HexValueBound | docflow/APIClient.php:24 | eight hex digits denote less than 16^8 |
| ObjectIds.JsonSerialize | docflow/APIClient.php:27-29 | the JSON form is the one-entry map `$oid` ↦ oid |
| ObjectIds.Serialize | docflow/APIClient.php:31-33 | `serialize(['oid' => oid])`: the one-entry array form, with the string's length in decimal |
| ObjectIds.Unserialize | docflow/APIClient.php:34-37 | reads back that form and stores the payload without validating it; any other input is a TypeError |
| ObjectIds.SerializeRoundTrip | docflow/APIClient.php:31-37 | unserialize(serialize(x)) restores an ObjectId equal to x, for every stored string |
| ObjectIds.UnserializeCanonical | docflow/APIClient.php:31-37 | serialize writes the shortest accepted form: anything unserialize accepts is at least as long, and equal to it when as long |
| ObjectIds.SerializedFixture | test_objectid.php:6-17 | the serialised form of `62eba7ba5ddf632cd13273a3` is exactly `a:1:{s:3:"oid";s:24:"62eba7ba5ddf632cd13273a3";}` |
| ObjectIds.UnserializedFixture | test_objectid.php:6-22 | unserialising that literal gives the ObjectId `62eba7ba5ddf632cd13273a3` |
| Decimal.NatToStringValue | docflow/APIClient.php:32 | the decimal length text PHP writes denotes the length |
| Decimal.PadValue | docflow/APIClient.php:44 | zero padding reaches the requested width and keeps the value |
| Decimal.PadAtLeast | docflow/APIClient.php:44 | zero padding is at least as wide as requested and keeps the value, also for wider numbers |
| Numeric.LeadingBlanks | docflow/APIClient.php:67 | the leading run of blanks PHP skips in a numeric string: all blanks, and the next character is not one |
| Numeric.TrailingBlanks | docflow/APIClient.php:67 | the trailing run of blanks PHP 8 allows after a numeric string: all blanks, and the character before is not one |
| Numeric.IntegerValueOfInt | docflow/APIClient.php:67 | the decimal text of any integer is a numeric string with that value |
| Numeric.IntegerCharacters | docflow/APIClient.php:103 | a numeric string in integer form holds only blanks, digits and signs |
| Numeric.TrimAppendBlank | docflow/APIClient.php:103 | a final blank does not change the trimmed text of a string with a non-blank |
| Numeric.TrailingLineFeed | docflow/APIClient.php:103 | a numeric string in the integer range is `==` to itself followed by a line feed, though the texts differ |
| Json.Succeeded | docflow/APIClient.php:67 | `isset($response->success) && $response->success == 1` |
| Json.EqualsOne | docflow/APIClient.php:67 | PHP 8 `$x == 1` |
| Json.EqualsOneCases | docflow/APIClient.php:67 | a value is `== 1` exactly when it is true, 1, an object, or a numeric string of value 1 |
| Json.IsPositive | docflow/APIClient.php:216 | PHP 8 `$x > 0`: null and false are not, true is; a numeric string by its value, another string as text against `"0"`; arrays and objects are |
| Json.NumericStrings | docflow/APIClient.php:216 | the decimal text of a number n is `== 1` iff n is 1, and `> 0` iff n > 0 |
| Json.WordStrings | docflow/APIClient.php:216 | a string starting with a lower-case letter is not `== 1` and is `> 0` |
| Json.LooseIdEquals | docflow/APIClient.php:103 | PHP 8 `==` between non-null, non-boolean values: numeric strings and integers as numbers, other strings as text, ObjectIds through their strings, any object against an integer as 1 |
| Json.LooseEquals | docflow/APIClient.php:89 | PHP 8 `==`: null equals the falsy values and `""`, a boolean compares with the other side's truthiness, everything else as `LooseIdEquals` |
| Json.InArray | docflow/APIClient.php:160 | `in_array` in its loose mode: some listed value is `==` to the needle |
| Json.InArrayCases | docflow/APIClient.php:160-162 | a listed string doctype is accepted; a null doctype is accepted iff some id is falsy and not `"0"` |
| Json.StringArgument | docflow/APIClient.php:10 | the string a `string` parameter receives in coercive mode: strings as they are, ObjectIds through `__toString`, booleans and integers converted, anything else refused |
| Json.ToObjectId | docflow/APIClient.php:10-17 | `new ObjectId($v)` in coercive mode succeeds iff `$v` converts to a string that the pattern matches; the id holds that string; else InvalidArgumentException, or TypeError for arrays, objects and null |
| Json.IntegerIsNeverObjectId | docflow/APIClient.php:10-11 | no 64-bit integer converts to a valid ObjectId |
| Normalize.WithObjectId | docflow/APIClient.php:70-71 | one property of the profile becomes an ObjectId; every other property is kept; a non-object profile or a bad id fails |
| Normalize.NormalizeProfile | docflow/APIClient.php:69-71 | the stored profile has `_id` and `currentOwnerId` as ObjectIds and every other key unchanged; it fails iff the value is not an object or either id is invalid |
| Normalize.NormalizeOwner | docflow/APIClient.php:136-139 | a membership entry gets an ObjectId `id`; its other keys are untouched |
| Normalize.Owners | docflow/APIClient.php:133-140 | getOwners: a non-list `owners` is a TypeError; otherwise it succeeds iff every entry converts, giving the entries in order, each normalised, every id an ObjectId; else the error of the first entry that fails, all earlier ones converting |
| Normalize.OwnerIs | docflow/APIClient.php:103 | `$owner->id == $objectId` |
| Normalize.IsMember | docflow/APIClient.php:100-107 | some membership entry's id is `==` to the given id |
| Normalize.OwnerIsExact | docflow/APIClient.php:103 | for a normalised entry and an id with a lower-case hex letter, `==` is exact id equality |
| Normalize.NormalizeOwnerIdempotent | docflow/APIClient.php:137 | normalising an entry twice gives the same entry |
| Normalize.ConvertedPrefix | docflow/APIClient.php:136-139 | the membership list once its first k entries have been converted in place: those k converted, the rest as they were |
| Normalize.OwnersWriteBack | docflow/APIClient.php:136-139 | whether getOwners returns or throws at entry k, the profile it leaves (first k entries converted) gives the same getOwners result, list or error, as before |
| Normalize.ConvertedAlike | docflow/APIClient.php:136-139 | converted or not, each entry converts to the same thing |
| Normalize.OwnersWriteBackComplete | docflow/APIClient.php:136-139 | when getOwners returns, the profile holding the list it returned gives back that very list |
| Normalize.FirstMatching | docflow/APIClient.php:88-90 | `current(array_filter(...))`: the first entry whose id is `==` to the current owner id (whatever value that is), or none when no entry is |
| Normalize.CurrentOwner | docflow/APIClient.php:86-99 | getOwner: id, name, iban and mailbox come from the profile; the role comes from the first matching membership (null if none); it fails iff getOwners fails |
| Normalize.DoctypeIds | docflow/APIClient.php:145-150 | getDocumentTypes: `[]` for a non-list response; otherwise the entries' `id`s, same length and order |
| Normalize.DocumentIds | docflow/APIClient.php:216-222 | getDocumentList: `[]` unless `data` is set and `total > 0` in PHP 8's loose sense (a numeric string such as `"3"` counts by its value); otherwise it succeeds iff `data` is a list of convertible ids, giving one ObjectId per entry in order; a non-list `data` is a TypeError, and a bad entry gives the error of the first one that fails |
| Normalize.NormalizePage | docflow/APIClient.php:235-239 | a page gets `fileId` (the ObjectId of a truthy `_id`, else null); `_id`, `vision` and `type` are removed; every other key is untouched |
| Normalize.NormalizeField | docflow/APIClient.php:240-245 | a field loses `bboxes`; `bounds.id` becomes an ObjectId only when `bounds` and its id are non-empty; other keys are untouched; non-objects pass through |
| Normalize.NormalizeFields | docflow/APIClient.php:246 | empty fields become `[]`; a non-empty non-list fails; otherwise each field is normalised in order |
| Normalize.OptionalObjectId | docflow/APIClient.php:228 | a truthy id becomes an ObjectId; anything falsy becomes null |
| Normalize.DocumentObject | docflow/APIClient.php:226-247 | the prepared document has exactly the ten listed keys; `step`, `doctype`, `name`, `predicted`, `updatedAt` and `createdAt` come straight from the response |
| Normalize.PrepareDocumentInfo | docflow/APIClient.php:225-248 | prepareDocumentInfo succeeds iff the document is an object and its id, user id, pages and fields all convert; on success, every key of the result is given in terms of the input |
| Normalize.PreparedDocumentShape | docflow/APIClient.php:235-246 | pages keep their number and order, none keeps `_id`/`vision`/`type`, each has `fileId` and its other keys; no object field keeps `bboxes`; empty fields become `[]` |
| Cookies.Scan | docflow/APIClient.php:363 | the `preg_match_all` scan: every capture consists of characters the capture group admits |
| Cookies.Captures | docflow/APIClient.php:363 | with the corrected pattern no capture holds `;`, CR or LF |
| Cookies.CapturesOfLines | docflow/APIClient.php:363 | corrected pattern: for a header block of CR LF-terminated lines, one capture per `Set-Cookie` line, in header order, taken up to the first `;` |
| Cookies.AsWrittenSwallowsNextCookie | docflow/APIClient.php:363 | as written, a `Set-Cookie` line without attributes captures the following header line as well, so the next cookie is lost |
| Cookies.CorrectedFindsBothCookies | docflow/APIClient.php:363 | the corrected scan finds both cookies of that header |
| Cookies.EqualsAt | docflow/APIClient.php:366 | the position of the first `=` of a capture, or its end |
| Cookies.ParseItem | docflow/APIClient.php:366 | `parse_str` of one capture sets at most one name: the text before the first `=`, if not empty |
| Cookies.Jar | docflow/APIClient.php:364-368 | the captures parsed and merged left to right with `array_merge` |
| Cookies.JarKeyOrigin | docflow/APIClient.php:364-368 | every name in the merged map was set by some capture, and the lemma names one |
| Cookies.JarKeyPresent | docflow/APIClient.php:364-368 | every name some capture sets is in the merged map |
| Cookies.JarLastWins | docflow/APIClient.php:364-368 | `array_merge` in order: a name's value is the one set by the last capture that sets it |
| Rest.RESTClient.ParseCookies | docflow/APIClient.php:362-370 | the merge loop gives exactly the merged map of the captures of the corrected scan; every name comes from a capture |
| Rest.HeaderCookiesOfLines | docflow/APIClient.php:362-370 | with the corrected scan, the cookies of a header block are those of its `Set-Cookie` lines merged in order |
| Rest.CookiesAfter | docflow/APIClient.php:346-349 | a status-200 answer replaces the cookies by those its header sets; any other status leaves them |
| Rest.RESTClient.ProcessResponse | docflow/APIClient.php:340-360 | status 200: the stored cookies *become* this response's cookies (replaced, not merged; read with the corrected scan) and the body is returned; any other status: API error, cookies unchanged |
| Rest.RESTClient.Get | docflow/APIClient.php:314-324 | logs a GET carrying the current cookies, then processes the response |
| Rest.RESTClient.Post | docflow/APIClient.php:326-338 | logs a POST of the JSON body carrying the current cookies, then processes the response |
| Rest.RESTClient.constructor | docflow/APIClient.php:312 | a new session has no cookies and has sent nothing |
| Dates.YearText | docflow/APIClient.php:44 | `Y`: for a year y ≥ 0 at least four digits denoting y; for y < 0 a `-` then at least four digits denoting -y |
| Dates.FormatDate | docflow/APIClient.php:44 | `Y-m-d\TH:i:s.000\Z`: the date, a `T`, the time, then the literal `.000Z` |
| Dates.FormatDateParts | docflow/APIClient.php:44 | for years 0–9999: 24 characters, the date text in the first ten, `T`, the time text, `.000Z` |
| Dates.FormatDateLayout | docflow/APIClient.php:44 | for years 0–9999 the text is `YYYY-MM-DDTHH:MM:SS.000Z`: 24 characters, fixed separators, each digit group giving its field back |
| Dates.FormatDateInjective | docflow/APIClient.php:212 | different dates (years 0–9999) give different filter texts |
| Pages.DataUri | docflow/APIClient.php:281-282 | `data:<mime>;base64,` followed by the base64 text of the bytes |
| Pages.PagesOf | docflow/APIClient.php:250-305 | the pages of a file: split per page for a PDF of more than one page, the whole file as page 1 for another PDF or a jpg/jpeg/png image, "Unsupported type" otherwise |
| Pages.PrepareDocumentPages | docflow/APIClient.php:250-305 | the page loop yields exactly the specified page list |
| Pages.PagesShape | docflow/APIClient.php:250-305 | only PDFs and jpg/jpeg/png are accepted (else "Unsupported type"); a PDF of n > 1 pages gives n pages, anything else one; pages are numbered 1.. in order, each carrying the name and type, the data URI of its own bytes (page i of the split PDF, or the whole file), and its hash = sha1(data); never empty |
| Pages.PagesOutcome | docflow/APIClient.php:250-305 | in short: at least one page, or the unsupported-type error |
| Pages.PageJson | docflow/APIClient.php:269-275 | a page is sent as an object with exactly `data`, `name`, `hash`, `page` and `type`, each holding the page's own value |
| Pages.Basename | docflow/APIClient.php:164 | a basename contains no `/` |
| Pages.BasenameOfJoin | docflow/APIClient.php:164 | the basename of `dir/name` is `name` |
| Pages.BasenameIdempotent | docflow/APIClient.php:173 | a basename is its own basename |
| Client.Credentials | docflow/APIClient.php:60 | the login body: the e-mail and the hex SHA-256 of the password |
| Client.Without | docflow/APIClient.php:123 | `unset($response->success)` removes exactly that key |
| Client.UploadBody | docflow/APIClient.php:170-178 | the upload body: the file's basename, the doctype, `process` 0 and the pages in order |
| Client.ListQuery | docflow/APIClient.php:206-213 | the document-list body: the doctype as `project`, sorted by `_id` newest first, the two dates formatted as the creation range |
| Client.StoredProfile | docflow/APIClient.php:68-71 | what storing a profile leaves: a non-object leaves the previous profile; an object is kept with every key but the two ids unchanged; when both ids convert it is the normalised profile; a bad `_id` leaves the object as it came; a good `_id` with a bad `currentOwnerId` leaves `_id` converted and `currentOwnerId` as it came |
| Client.Followed | docflow/APIClient.php:192-194 | the owner switch: nothing sent when the owner is current or cannot be read; one change-owner POST for a member; "no rights" with nothing sent otherwise; cookies and profile after each answer |
| Client.Fetched | docflow/APIClient.php:196-198 | the fetch: status 200 gives the prepared body, any other status the API error; the cookies follow the answer |
| Client.Lookup | docflow/APIClient.php:190-198 | getDocumentInfo once the info answer is in, case by case: a bad owner id or an unreadable current owner throws with nothing sent; the same owner is fetched at once; a member's change is posted first, and the fetch follows unless the change failed or its profile did not convert; a rejected change still fetches; a non-member gets "no rights" with nothing sent |
| Client.FollowThenFetch | docflow/APIClient.php:192-199 | an owner switch followed, on success, by one fetch meets the combined description: the change-owner request (if any) comes first, the fetch last |
| Client.APIClient.constructor | docflow/APIClient.php:45-51 | a new client is logged out and has a fresh, empty session |
| Client.APIClient.IsLoggedIn | docflow/APIClient.php:82-84 | returns the login flag |
| Client.APIClient.CheckLoggedIn | docflow/APIClient.php:53-57 | passes iff logged in; otherwise "not logged in" |
| Client.APIClient.GetOwners | docflow/APIClient.php:133-140 | logged out: "not logged in"; otherwise the normalised memberships of the profile, every id an ObjectId |
| Client.APIClient.GetOwner | docflow/APIClient.php:86-99 | fails iff getOwners fails; the id is the profile's `currentOwnerId` |
| Client.APIClient.StoreProfile | docflow/APIClient.php:69-71 | refuses a non-object (TypeError, previous profile kept); otherwise stores it, then converts `_id`, then `currentOwnerId`, in place; the profile left is `StoredProfile`; the answer is true or the first conversion's error |
| Client.APIClient.Login | docflow/APIClient.php:59-75 | posts the e-mail and the SHA-256 of the password; every 200 answer replaces the session cookies; only `success == 1` sets the flag and stores the profile; a rejected login returns false with flag and profile unchanged; a non-200 answer throws with flag, profile and cookies unchanged |
| Client.APIClient.Logout | docflow/APIClient.php:77-80 | posts to `/user/logout` and returns true (a non-200 answer throws); a 200 answer replaces the cookies; the flag and the profile are unchanged |
| Client.APIClient.HasOwner | docflow/APIClient.php:100-107 | true iff some membership entry's id is `==` to the given id; getOwners' failure propagates |
| Client.APIClient.FindOwner | docflow/APIClient.php:101-106 | the loop over the memberships returns true iff one of them has an id `==` to the given id |
| Client.APIClient.ChangeOwner | docflow/APIClient.php:110-131 | logged out, getOwners failing, or not a member: throws with no request sent and nothing changed; otherwise posts the id and the answer sets the cookies; on success the profile becomes the stored answer minus `success`; on rejection it returns false with the profile unchanged |
| Client.APIClient.GetDocumentTypes | docflow/APIClient.php:142-151 | logged out: throws with no request; otherwise one GET `/doctypes`, the cookies it sets, and the listed ids |
| Client.APIClient.UploadDocument | docflow/APIClient.php:153-185 | checks in order: login, file exists (no request so far), doctype listed (after the one doctypes request), file type; then posts the basename, doctype and pages; every request is appended to the log and the cookies follow each answer; returns the new id only when `success == 1`, else none |
| Client.APIClient.UploadListed | docflow/APIClient.php:160-185 | uploadDocument once the types are listed: the doctype check, the file type check, then the upload as `Uploaded` describes |
| Client.APIClient.SendUpload | docflow/APIClient.php:170-184 | one POST of the upload body; the cookies follow the answer; the new id on `success == 1`, none on rejection, the API error on a non-200 answer |
| Client.APIClient.FollowOwner | docflow/APIClient.php:192-194 | performs the owner switch exactly as `Followed` describes, the log growing by the requests it sent |
| Client.APIClient.FetchDocument | docflow/APIClient.php:196-198 | exactly one GET of `/document/<id>` with the current cookies; the result and the cookies as `Fetched` describes |
| Client.APIClient.OpenDocument | docflow/APIClient.php:191-198 | from the info answer on, does exactly what `Lookup` describes, the log growing by the requests it sent |
| Client.APIClient.GetDocumentInfo | docflow/APIClient.php:186-203 | logged out: throws with no request; otherwise the info GET comes first; a non-200 answer throws with cookies and profile unchanged; a falsy answer (null, false, 0, empty list) is "No response" with only its cookies taken; otherwise `Lookup` with the cookies the info answer set |
| Client.APIClient.GetDocumentList | docflow/APIClient.php:205-223 | no login check; one POST of the date range (newest first); the answer sets the cookies; the result is DocumentIds of the answer, or the API error |

## Left out

- The curl transport is not modelled: connection set-up, the 5-second timeout, request headers, and splitting the raw answer at the header size. A response is an input: status, header block and decoded body.
- The `Cookie` request header is not modelled as text. A request records the cookie map it carries; `http_build_query`'s URL encoding of that map is not modelled.
- `json_decode` is not modelled. The body is given already decoded; a body that is not JSON is null, and the "Wrong response" exception can never be raised. `json_encode` of the request bodies is not modelled either, including its failure on invalid UTF-8: a body is the value before encoding.
- Floating-point JSON numbers are not modelled: `Json` has integers only.
- Key order in JSON objects is not modelled: objects are maps.
- SHA-256, SHA-1 and base64 are not modelled. They are function-valued parameters (`Pages.Builtins`).
- The filesystem and FPDI are not modelled. `file_exists`, `mime_content_type`, the PDF page count, the file's bytes and the bytes of each split page are fields of `Pages.FileInfo`. FPDI exceptions for unreadable PDFs are not modelled.
- `Pages.Basename`: locale-dependent multibyte handling and the `suffix` argument are not modelled.
- `Numeric.IntegerValue`: only numeric strings in integer form are numeric here. PHP's float forms are treated as non-numeric and compared as text, for example `"1.0"`, `".5"` or `"1e3"`.
- `Json.EqualsOne`: PHP finds `"1.0"`, `"1e0"` and `" 1.0"` equal to 1. Here they are not, so such a `success` flag counts as a rejection.
- `Json.IsPositive`: a float-form string is compared as text against `"0"`. So `"0e5"` counts as positive here, while PHP finds it equal to 0. For `"0.5"` or `"-1e2"` the two agree.
- `Json.LooseIdEquals`: float-form numeric strings are compared as text here. PHP compares them with each other, and with integers, as floating-point numbers. Arrays and plain objects are compared exactly here; PHP compares them key by key, loosely. A JSON integer against a numeric string whose value overflows a PHP integer is compared by exact value here. PHP compares the two as floating-point numbers, so `9223372036854775807` equals `"9223372036854775808"` in PHP but not here.
- `Json.LooseEquals`: the same gaps as `Json.LooseIdEquals`, which it falls back to.
- `ObjectIds.SameId`: some ids are PHP-equal but compared as text here. An id in exponent form such as `0000000000000000000001e5` equals `0000000000000000000001E5` and `000000000000000000100000`, since all three denote 100000.
- `ObjectIds.CaseSensitiveEquality`: this holds in PHP for every id that is not a numeric string. For an exponent-form id such as `0000000000000000000001e5`, PHP finds the upper-cased id equal; the lemma states the text comparison of this model for it.
- `Normalize.OwnerIsExact`: the same gap, for a current id whose only letters are `e`s between digits.
- `ObjectIds.Serialize`: the `s:N:` length counts characters, where PHP counts bytes. The two differ only for non-ASCII text. A valid id never holds any, but an id restored by `Unserialize` can.
- `Rest.RESTClient.ParseCookies`: the session reads cookies with the corrected scan `Cookies.Captures`, one capture per `Set-Cookie` line. The pattern as written is `Cookies.CapturesAsWritten`. On a `Set-Cookie` line without `;` it runs into the next header line. PHP then stores that next line as part of the cookie's value, and a cookie set on that line is lost (see "## Findings"). So the cookie map that every 200 answer leaves is the corrected one: in `ProcessResponse`, `Get`, `Post` and every `APIClient` operation.
- `Cookies.ParseItem`: each capture is split at its first `=`. Not modelled:
  - `parse_str`'s URL decoding and `+` to space;
  - `&`-separated pairs;
  - array syntax in names (`a[b]`);
  - rewriting `.` and spaces in names to `_`.
- `Cookies.Jar`: `array_merge` renumbers integer-like names instead of overwriting them. Names are treated as strings here.
- `ObjectIds.Unserialize`: only the one-entry form that `serialize` writes is read. Other well-formed PHP serialisations are not modelled, such as an integer `oid` coerced to a string or reordered entries; they are reported as TypeError.
- `ObjectIds.Timestamp`: for an id restored by `unserialize` (which does not validate), `intval`'s handling of leading blanks, a sign or a `0x` prefix is not modelled.
- PHP warnings are not modelled, for example on reading a missing property. The value read is null, as in PHP.
- Reading the typed `userData` property before any profile was stored raises PHP's uninitialised-property Error; it is modelled as TypeError.
- `Dates.FormatDateLayout`: the fixed layout is stated for years 0 to 9999 only. Longer and negative years are formatted, but their layout is not stated.
- Time zones and the clock are not modelled: a `DateTime` is given by its fields.
- The exception classes and messages are not modelled: each failure is an `Errors.Error` constructor.
- The in-place write-back of converted owner entries into the stored profile in `getOwners` is not modelled. `Normalize.OwnersWriteBack` proves that no later result depends on it, whether `getOwners` returns or throws part-way.
- The in-place edits `prepareDocumentInfo` makes to the response objects are not modelled, because the response is not kept afterwards.
- The `Document with no pages!` check in `uploadDocument` is not modelled as a branch. `Pages.PagesShape` proves it can never fire, and it is asserted at that point.
- `export` is called by a test script but defined nowhere in the client, so it is not part of this model.

## Findings

| source | as written | input that shows it | evidently intended | confidence | as-written member | corrected member |
|---|---|---|---|---|---|---|
| docflow/APIClient.php:363 | `/^Set-Cookie:\s*([^;]*)/mi`: `[^;]*` (and `\s*`) run across line breaks, so a `Set-Cookie` line without attributes captures the rest of the header up to the next `;`, including the next `Set-Cookie` line | `Set-Cookie: a=1` CR LF `Set-Cookie: b=2; path=/` CR LF gives one capture, `a=1` CR LF `Set-Cookie: b=2`, so the cookie map gets the single name `a`, with that value | one capture per `Set-Cookie` line, ending at `;` or at the end of the line: `a=1` and `b=2` | not executed | Cookies.AsWrittenSwallowsNextCookie | Cookies.CorrectedFindsBothCookies |
